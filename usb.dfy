/** The request/response correlation engine of the USB driver
    (usb/src/device/usb.rs): command index bookkeeping, framing, the bounded
    poll for a reply, the single resync on an index mismatch, and device
    discovery over an enumerated device list. */
module Usb {
  import opened Wrappers
  import opened Ints
  import opened UsbFrame
  import opened UsbTransport
  import opened Seqs

  // Identity constants (declared in goxlr.rs, which is not part of this model).
  const VID_GOXLR: u16 := 0x1220
  const PID_GOXLR_FULL: u16 := 0x8fe0
  const PID_GOXLR_MINI: u16 := 0x8fe4

  /** Numeric id of ResetCommandIndex (commands.rs is not part of this model;
      no property below depends on this value). */
  const RESET_COMMAND_ID: u32 := 0

  const REQUEST_COMMAND: byte := 2     // vendor request that delivers a command
  const REQUEST_RESPONSE: byte := 3    // vendor request that polls for a response
  const RESPONSE_LEN: nat := 1040      // size of the read buffer
  const POLL_ATTEMPTS: nat := 20

  /** A command: the distinguished index reset, or any other command with
      its opaque 32-bit identifier. */
  datatype Command = ResetCommandIndex | Hardware(id: u32)

  function CommandId(c: Command): u32
  {
    match c
    case ResetCommandIndex => RESET_COMMAND_ID
    case Hardware(id) => id
  }

  /** Settle delay in milliseconds: the Mini needs longer than the full device. */
  function SleepTime(productId: u16): nat
  {
    if productId == PID_GOXLR_MINI then 10 else 3
  }

  /** The driver state a request depends on: the command counter, the
      product id from the descriptor, and the bus. */
  datatype Session = Session(count: u16, productId: u16, link: Link)

  datatype Outcome = Outcome(session: Session, result: Result<seq<byte>, UsbError>)

  /** How the poll loop ended: 20 not-ready reads, a fatal read, or a reply
      of at least 16 bytes split into header and body. */
  datatype Polled = Exhausted | Fatal(error: UsbError) | Reply(header: seq<byte>, body: seq<byte>)

  /** Attempts `i` to 19 of the poll loop. */
  function Poll(l: Link, i: nat, ms: nat): (p: (Link, Polled))
    ensures p.1.Reply? ==> |p.1.header| == HEADER_LEN
    decreases POLL_ATTEMPTS - i, 1
  {
    if i >= POLL_ATTEMPTS then (l, Exhausted)
    else
      var (l1, rv) := ReadStep(l, REQUEST_RESPONSE, 0, 0, RESPONSE_LEN);
      AfterRead(l1, rv, i, ms)
  }

  /** Attempt `i` read `rv`: not ready sleeps and goes on with the next
      attempt; any other error, or a reply shorter than the header, is fatal. */
  function AfterRead(l: Link, rv: ReadResult, i: nat, ms: nat): (p: (Link, Polled))
    requires i < POLL_ATTEMPTS
    ensures p.1.Reply? ==> |p.1.header| == HEADER_LEN
    decreases POLL_ATTEMPTS - i, 0
  {
    if rv == Err(Pipe) then Poll(SleepStep(l, ms), i + 1, ms)
    else if rv.Err? then (l, Fatal(rv.error))
    else if |rv.value| < HEADER_LEN then (l, Fatal(Pipe))
    else (l, Reply(rv.value[..HEADER_LEN], rv.value[HEADER_LEN..]))
  }

  /** Recursion measure of `perform_request`: a reset with `retry` set makes
      no further request; every recursive call has a smaller rank. */
  function Rank(c: Command, retry: bool): nat
  {
    (if c.ResetCommandIndex? then 0 else 2) + (if retry then 0 else 1)
  }

  /** `perform_request(command, body, retry)` as a function of the session:
      first the command index is started (a reset zeroes the counter, any
      other command increments it, issuing a reset first when it is at
      u16::MAX), then the exchange runs with that index. */
  function Request(s: Session, c: Command, body: seq<byte>, retry: bool): (o: Outcome)
    ensures c.ResetCommandIndex? ==> o.session.count == 0
    ensures o.session.productId == s.productId
    decreases Rank(c, retry), 3
  {
    if c.ResetCommandIndex? then Exchange(s.(count := 0), c, body, retry)
    else if s.count == U16_MAX then
      var reset := Request(s, ResetCommandIndex, [], false);
      if reset.result.Err? then reset
      else Exchange(reset.session.(count := reset.session.count + 1), c, body, retry)
    else Exchange(s.(count := s.count + 1), c, body, retry)
  }

  /** Send the frame with index `s.count`, sleep the settle delay, then poll
      for the reply. */
  function Exchange(s: Session, c: Command, body: seq<byte>, retry: bool): (o: Outcome)
    ensures c.ResetCommandIndex? && s.count == 0 ==> o.session.count == 0
    ensures o.session.productId == s.productId
    decreases Rank(c, retry), 2
  {
    var (l1, written) := WriteStep(s.link, REQUEST_COMMAND, 0, 0, Frame(CommandId(c), s.count, body));
    if written.Err? then Outcome(s.(link := l1), Err(written.error))
    else
      var ms := SleepTime(s.productId);
      var (l2, polled) := Poll(SleepStep(l1, ms), 0, ms);
      Answer(s.(link := l2), c, body, retry, polled)
  }

  /** Act on how the poll ended, `s.count` being the index that was sent:
      a matching reply returns its body, a mismatch resyncs once (a reset,
      then the same command again, both with `retry` set) or, when this
      already is the retry, fails with `Other`. */
  function Answer(s: Session, c: Command, body: seq<byte>, retry: bool, polled: Polled): (o: Outcome)
    requires polled.Reply? ==> |polled.header| == HEADER_LEN
    ensures c.ResetCommandIndex? && s.count == 0 ==> o.session.count == 0
    ensures o.session.productId == s.productId
    decreases Rank(c, retry), 1
  {
    match polled
    case Exhausted => Outcome(s, Ok([]))
    case Fatal(e) => Outcome(s, Err(e))
    case Reply(header, response) =>
      if HeaderIndex(header) != s.count then
        if !retry then Resync(s, c, body)
        else Outcome(s, Err(Other))
      else Outcome(s, Ok(response))
  }

  /** The one resync after a mismatch: a reset, then the same command
      again, both with `retry` set; a failed reset ends the request. */
  function Resync(s: Session, c: Command, body: seq<byte>): (o: Outcome)
    ensures c.ResetCommandIndex? ==> o.session.count == 0
    ensures o.session.productId == s.productId
    decreases Rank(c, false), 0
  {
    var reset := Request(s, ResetCommandIndex, [], true);
    if reset.result.Err? then reset else Request(reset.session, c, body, true)
  }

  /** Builds `full_request` in place: a zeroed 16-byte header, the command
      id, the body length cast to u16 and the command index written
      little-endian into it, then the body appended. */
  method BuildRequest(id: u32, index: u16, body: seq<byte>) returns (fullRequest: seq<byte>)
    ensures fullRequest == Frame(id, index, body)
  {
    var header := new byte[HEADER_LEN](_ => 0);
    var idBytes := U32Bytes(id);
    header[0], header[1], header[2], header[3] := idBytes[0], idBytes[1], idBytes[2], idBytes[3];
    var lengthBytes := U16Bytes(|body| % 0x1_0000);
    header[4], header[5] := lengthBytes[0], lengthBytes[1];
    var indexBytes := U16Bytes(index);
    header[6], header[7] := indexBytes[0], indexBytes[1];
    fullRequest := header[..] + body;
  }

  class GoXLRUSB {
    const handle: DeviceHandle
    const productId: u16
    var commandCount: u16

    function Model(): Session
      reads this, handle
    {
      Session(commandCount, productId, handle.State())
    }

    /** The session `from_device` builds around an opened handle: the
        counter starts at 0. */
    constructor (handle: DeviceHandle, descriptor: DeviceDescriptor)
      ensures this.handle == handle && productId == descriptor.productId
      ensures commandCount == 0
    {
      this.handle := handle;
      this.productId := descriptor.productId;
      this.commandCount := 0;
    }

    method PerformRequest(command: Command, body: seq<byte>, retry: bool) returns (r: Result<seq<byte>, UsbError>)
      modifies this, handle
      ensures Outcome(Model(), r) == Request(old(Model()), command, body, retry)
      decreases Rank(command, retry), 3
    {
      ghost var s := Model();
      if command == ResetCommandIndex {
        commandCount := 0;
        assert Model() == s.(count := 0);
      } else if commandCount == U16_MAX {
        ghost var o := Request(s, ResetCommandIndex, [], false);
        var reset := PerformRequest(ResetCommandIndex, [], false);
        if reset.Err? {
          return Err(reset.error);
        }
        commandCount := commandCount + 1;
        assert Model() == o.session.(count := o.session.count + 1);
      } else {
        commandCount := commandCount + 1;
        assert Model() == s.(count := s.count + 1);
      }
      r := SendAndReceive(command, body, retry);
    }

    /** Lines 108-187 of `perform_request`, once the command index is
        assigned: frame, send, settle, poll, and act on the reply. */
    method SendAndReceive(command: Command, body: seq<byte>, retry: bool) returns (r: Result<seq<byte>, UsbError>)
      modifies this, handle
      ensures Outcome(Model(), r) == Exchange(old(Model()), command, body, retry)
      decreases Rank(command, retry), 2
    {
      var commandIndex := commandCount;
      var fullRequest := BuildRequest(CommandId(command), commandIndex, body);
      var written := handle.WriteControl(REQUEST_COMMAND, 0, 0, fullRequest);
      if written.Err? {
        return Err(written.error);
      }

      var sleepTime := 3;
      if productId == PID_GOXLR_MINI {
        sleepTime := 10;
      }
      handle.Sleep(sleepTime);

      var polled := AwaitResponse(sleepTime);
      assert Exchange(old(Model()), command, body, retry) == Answer(Model(), command, body, retry, polled);
      match polled
      case Exhausted =>
        r := Ok([]);
      case Fatal(e) =>
        r := Err(e);
      case Reply(responseHeader, response) =>
        var responseCommandIndex := HeaderIndex(responseHeader);
        if responseCommandIndex != commandIndex {
          if !retry {
            r := ResyncAndRetry(command, body);
          } else {
            r := Err(Other);
          }
        } else {
          r := Ok(response);
        }
    }

    /** The poll loop of `perform_request` (lines 128-156): up to 20 reads;
        not ready sleeps and tries again, any other error or a reply shorter
        than the header ends the request; the first full reply is split into
        header and body and handed back for the index check. */
    method AwaitResponse(sleepTime: nat) returns (polled: Polled)
      modifies handle
      ensures (handle.State(), polled) == Poll(old(handle.State()), 0, sleepTime)
    {
      ghost var spec := Poll(handle.State(), 0, sleepTime);
      for i := 0 to POLL_ATTEMPTS
        invariant spec == Poll(handle.State(), i, sleepTime)
      {
        var responseValue := handle.ReadControl(REQUEST_RESPONSE, 0, 0, RESPONSE_LEN);
        assert spec == AfterRead(handle.State(), responseValue, i, sleepTime);
        if responseValue == Err(Pipe) {
          if i < POLL_ATTEMPTS {
            handle.Sleep(sleepTime);
            continue;
          } else {
            // Lines 137-139 cannot run: the loop only counts 0 to 19.
            assert false;
          }
        }
        if responseValue.Err? {
          return Fatal(responseValue.error);
        }
        var responseHeader := responseValue.value;
        if |responseHeader| < HEADER_LEN {
          return Fatal(Pipe);
        }
        var response := responseHeader[HEADER_LEN..];
        responseHeader := responseHeader[..HEADER_LEN];
        return Reply(responseHeader, response);
      }
      return Exhausted;
    }

    /** Lines 171-176: reset the device's command index, then send the
        original command again; both requests carry `retry`. */
    method ResyncAndRetry(command: Command, body: seq<byte>) returns (r: Result<seq<byte>, UsbError>)
      modifies this, handle
      ensures Outcome(Model(), r) == Resync(old(Model()), command, body)
      decreases Rank(command, false), 0
    {
      var reset := PerformRequest(ResetCommandIndex, [], true);
      if reset.Err? {
        return Err(reset.error);
      }
      r := PerformRequest(command, body, true);
    }
  }

  // ---- Device discovery -------------------------------------------------

  datatype DeviceDescriptor = DeviceDescriptor(vendorId: u16, productId: u16)

  /** An enumerated USB device: its location and the result of reading its descriptor. */
  datatype UsbDevice = UsbDevice(busNumber: byte, address: byte, descriptor: Result<DeviceDescriptor, UsbError>)

  /** `GoXLRDevice`: where a device sits on the bus. */
  datatype GoXLRDevice = GoXLRDevice(busNumber: byte, address: byte)

  predicate IsGoXLR(d: DeviceDescriptor)
  {
    d.vendorId == VID_GOXLR && (d.productId == PID_GOXLR_FULL || d.productId == PID_GOXLR_MINI)
  }

  /** The locations of the devices whose descriptor reads as a GoXLR, in
      enumeration order. */
  function Located(devices: seq<UsbDevice>): (r: seq<GoXLRDevice>)
    ensures |r| <= |devices|
  {
    if devices == [] then []
    else
      var d := devices[0];
      (if d.descriptor.Ok? && IsGoXLR(d.descriptor.value) then [GoXLRDevice(d.busNumber, d.address)] else [])
      + Located(devices[1..])
  }

  /** Filtering distributes over concatenation. */
  lemma {:induction false} LocatedAppend(xs: seq<UsbDevice>, ys: seq<UsbDevice>)
    ensures Located(xs + ys) == Located(xs) + Located(ys)
    decreases |xs|
  {
    if xs == [] {
      assert xs + ys == ys;
    } else {
      assert (xs + ys)[1..] == xs[1..] + ys;
      LocatedAppend(xs[1..], ys);
    }
  }

  /** A location is found exactly when some enumerated device sits there
      with a readable GoXLR descriptor. */
  lemma {:induction false} LocatedMembers(devices: seq<UsbDevice>, location: GoXLRDevice)
    ensures location in Located(devices) <==>
      exists d :: d in devices && d.busNumber == location.busNumber && d.address == location.address
                  && d.descriptor.Ok? && IsGoXLR(d.descriptor.value)
    decreases |devices|
  {
    if devices != [] {
      LocatedMembers(devices[1..], location);
      assert forall d :: d in devices <==> d == devices[0] || d in devices[1..];
    }
  }

  /** `find_devices`: walks the enumerated devices and pushes the location
      of every one whose descriptor reads as a GoXLR; a failed enumeration
      finds nothing. */
  method FindDevices(enumerated: Result<seq<UsbDevice>, UsbError>) returns (foundDevices: seq<GoXLRDevice>)
    ensures enumerated.Err? ==> foundDevices == []
    ensures enumerated.Ok? ==> foundDevices == Located(enumerated.value)
  {
    foundDevices := [];
    if enumerated.Ok? {
      var devices := enumerated.value;
      for i := 0 to |devices|
        invariant foundDevices == Located(devices[..i])
      {
        LocatedAppend(devices[..i], [devices[i]]);
        PrefixGrows(devices, i);
        var device := devices[i];
        if device.descriptor.Ok? {
          var descriptor := device.descriptor.value;
          if descriptor.vendorId == VID_GOXLR
            && (descriptor.productId == PID_GOXLR_FULL || descriptor.productId == PID_GOXLR_MINI)
          {
            foundDevices := foundDevices + [GoXLRDevice(device.busNumber, device.address)];
          }
        }
      }
      assert devices[..|devices|] == devices;
    }
  }

  /** The first enumerated device at `location` whose descriptor can be read. */
  function FirstAt(devices: seq<UsbDevice>, location: GoXLRDevice): (r: Option<UsbDevice>)
    ensures r.Some? ==>
              && r.value in devices && r.value.descriptor.Ok?
              && r.value.busNumber == location.busNumber && r.value.address == location.address
    ensures r.None? <==> forall d :: d in devices ==>
      !(d.busNumber == location.busNumber && d.address == location.address && d.descriptor.Ok?)
  {
    if devices == [] then None
    else
      var d := devices[0];
      if d.busNumber == location.busNumber && d.address == location.address && d.descriptor.Ok? then Some(d)
      else FirstAt(devices[1..], location)
  }

  /** The device at `location` with a readable descriptor. */
  predicate ReadableAt(d: UsbDevice, location: GoXLRDevice)
  {
    d.busNumber == location.busNumber && d.address == location.address && d.descriptor.Ok?
  }

  /** The device found is the first one at that location in enumeration order. */
  lemma {:induction false} FirstAtIsFirst(devices: seq<UsbDevice>, location: GoXLRDevice)
    requires FirstAt(devices, location).Some?
    ensures exists j | 0 <= j < |devices| ::
              && devices[j] == FirstAt(devices, location).value
              && forall k | 0 <= k < j :: !ReadableAt(devices[k], location)
    decreases |devices|
  {
    if !ReadableAt(devices[0], location) {
      FirstAtIsFirst(devices[1..], location);
      var j :| 0 <= j < |devices[1..]| && devices[1..][j] == FirstAt(devices[1..], location).value
        && forall k | 0 <= k < j :: !ReadableAt(devices[1..][k], location);
      assert devices[j + 1] == FirstAt(devices, location).value;
      assert forall k | 0 <= k < j + 1 :: !ReadableAt(devices[k], location) by {
        forall k | 0 <= k < j + 1 ensures !ReadableAt(devices[k], location) {
          if k > 0 { assert devices[k] == devices[1..][k - 1]; }
        }
      }
    } else {
      assert devices[0] == FirstAt(devices, location).value;
    }
  }

  /** `find_device`'s error: no readable device at the requested location. */
  datatype FindError = DeviceNotFound

  /** `find_device`: the first device at the requested bus and address whose
      descriptor reads, with that descriptor; a device there whose descriptor
      fails is skipped, and a failed enumeration finds nothing. */
  method FindDevice(enumerated: Result<seq<UsbDevice>, UsbError>, location: GoXLRDevice)
    returns (r: Result<(UsbDevice, DeviceDescriptor), FindError>)
    ensures enumerated.Err? ==> r == Err(DeviceNotFound)
    ensures enumerated.Ok? ==> match FirstAt(enumerated.value, location)
      case None => r == Err(DeviceNotFound)
      case Some(d) => r == Ok((d, d.descriptor.value))
  {
    if enumerated.Ok? {
      var devices := enumerated.value;
      for i := 0 to |devices|
        invariant FirstAt(devices, location) == FirstAt(devices[i..], location)
      {
        assert devices[i..][1..] == devices[i + 1..];
        var usbDevice := devices[i];
        if usbDevice.busNumber == location.busNumber && usbDevice.address == location.address {
          if usbDevice.descriptor.Ok? {
            return Ok((usbDevice, usbDevice.descriptor.value));
          }
        }
      }
      assert devices[|devices|..] == [];
    }
    return Err(DeviceNotFound);
  }
}
