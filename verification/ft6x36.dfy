/** The FT6x36 touch-controller driver: its process-wide state, initialisation, the polling
    step the GUI calls on every input tick, and the gesture-ID accessor. The bus, the
    coordinate queue and the build-time switches are explicit values. */
module Ft6x36 {
  import opened Machine
  import opened Wrappers
  import opened Registers
  import opened Orientation

  datatype TouchState = Pressed | Released

  /** The stored sample `touch_inputs`: last reported coordinates and current state. */
  datatype Sample = Sample(lastX: Int16, lastY: Int16, state: TouchState)

  /** The sample before any touch: coordinates -1 mark "never touched". */
  const NeverTouched := Sample(-1, -1, Released)

  /** Build-time configuration: the bus port and register offsets, the coordinate masks,
      the orientation switches and resolution, and whether the coordinate queue is built. */
  datatype Config = Config(
    touchPort: nat,
    statusReg: UInt8,
    gestureReg: UInt8,
    masks: Masks,
    transform: Transform,
    queueEnabled: bool)

  /** The single-element coordinate queue: absent (not built, or its creation failed) or
      present with at most one unread sample. */
  datatype Channel = NoQueue | Queue(slot: Option<Sample>)

  /** The driver's static state: the init flag, the 8-bit device address, the stored
      sample and the queue. */
  datatype Driver = Driver(inited: bool, devAddr: UInt8, touch: Sample, channel: Channel)

  /** The state at program start, before `ft6x06_init`: zero-initialised flag and address,
      the never-touched sample and no queue. */
  const PowerOn := Driver(false, 0, NeverTouched, NoQueue)

  /** The fields of the GUI's input record that the driver writes. */
  datatype Indev = Indev(x: Int16, y: Int16, state: TouchState)

  /** What the bus returned for the five-byte read: an error status or the bytes. */
  datatype BusRead = BusErr | BusOk(regs: TouchRegs)

  /** A read transaction the driver issues: port, device address, first register, length. */
  datatype BusRequest = BusRequest(port: nat, addr: UInt8, reg: UInt8, len: nat)

  /** Everything one call of the polling function produces: the next driver state, the
      input record as left for the caller, the boolean return value, the bus read issued
      (if any) and the sample sent to the queue (if any). */
  datatype Poll = Poll(driver: Driver, data: Indev, more: bool, request: Option<BusRequest>, published: Option<Sample>)

  /** Exactly one touch point was reported; a failed read, no touch and multi-touch all
      fail this test. */
  predicate IsSingleTouch(bus: BusRead)
  {
    bus.BusOk? && bus.regs.count == 1
  }

  /** The record the GUI sees for a stored sample. */
  function Report(s: Sample): Indev
  {
    Indev(s.lastX, s.lastY, s.state)
  }

  /** `xQueueOverwrite`: a present queue afterwards holds exactly `s`, whatever it held, so
      the next receive yields `s` and nothing after it. */
  function Overwrite(ch: Channel, s: Sample): (ch': Channel)
    ensures ch.Queue? ==> Take(ch') == (Some(s), Queue(None))
    ensures ch.NoQueue? ==> ch' == NoQueue
  {
    match ch
    case Queue(_) => Queue(Some(s))
    case NoQueue => NoQueue
  }

  /** The sample a single-touch block is stored as: decoded, oriented, Pressed. The raw
      touch position can be recovered from the stored one, and with 12-bit masks and no
      orientation switches both coordinates lie in 0..0xFFF. */
  function PressedSample(cfg: Config, regs: TouchRegs): (s: Sample)
    ensures s.state == Pressed
    ensures Point(s.lastX, s.lastY) == Orient(cfg.transform, Point(RawX(cfg.masks, regs), RawY(cfg.masks, regs)))
    ensures Unorient(cfg.transform, Point(s.lastX, s.lastY)) == Point(RawX(cfg.masks, regs), RawY(cfg.masks, regs))
    ensures cfg.masks == TwelveBitMasks && !cfg.transform.swapXY && !cfg.transform.invertX && !cfg.transform.invertY ==>
      0 <= s.lastX < 0x1000 && 0 <= s.lastY < 0x1000
  {
    var raw := Point(RawX(cfg.masks, regs), RawY(cfg.masks, regs));
    var p := Orient(cfg.transform, raw);
    UnorientOrient(cfg.transform, raw);
    DecodeTwelveBit(regs.xHigh, regs.xLow);
    DecodeTwelveBit(regs.yHigh, regs.yLow);
    Sample(p.x, p.y, Pressed)
  }

  /** `ft6x06_init`: marks the driver initialised, keeps the low byte of the 16-bit address
      argument, leaves the stored sample alone and, when the queue is built, creates it and
      seeds it with the stored sample; a failed creation returns before seeding. The five
      identification reads only feed the log. */
  function Init(cfg: Config, d: Driver, addr: UInt16, queueCreated: bool): (d': Driver)
    ensures d'.inited
    ensures d'.devAddr == addr % 0x100
    ensures d'.touch == d.touch
    ensures cfg.queueEnabled && queueCreated ==> d'.channel == Queue(Some(d.touch))
    ensures cfg.queueEnabled && !queueCreated ==> d'.channel == NoQueue
    ensures !cfg.queueEnabled ==> d'.channel == d.channel
  {
    var channel :=
      if !cfg.queueEnabled then d.channel
      else if queueCreated then Queue(Some(d.touch))
      else NoQueue;
    Driver(true, ToUInt8(addr), d.touch, channel)
  }

  /** Initialising at power-on stores the never-touched sample and, when the queue exists,
      leaves that sample waiting in it. */
  lemma InitFromPowerOn(cfg: Config, addr: UInt16)
    requires cfg.queueEnabled
    ensures Init(cfg, PowerOn, addr, true).touch == Sample(-1, -1, Released)
    ensures Init(cfg, PowerOn, addr, true).channel == Queue(Some(Sample(-1, -1, Released)))
  {
  }

  /** `ft6x36_read`, one poll. Uninitialised, it touches nothing and returns false. Otherwise
      it issues one five-byte read at the status register. Unless exactly one point is
      reported it moves to Released with the coordinates kept, sending to the queue only
      on a Pressed-to-Released edge; with one point it stores the decoded, oriented
      coordinates as Pressed and sends every time. The caller's record always ends up
      equal to the stored sample, and the return value is always false. */
  function Read(cfg: Config, d: Driver, data: Indev, bus: BusRead): (p: Poll)
    ensures !p.more
    ensures !d.inited ==> p == Poll(d, data, false, None, None)
    ensures d.inited ==> p.request == Some(BusRequest(cfg.touchPort, d.devAddr, cfg.statusReg, 5))
    ensures d.inited ==> p.data == Report(p.driver.touch)
    ensures p.driver.inited == d.inited && p.driver.devAddr == d.devAddr
    ensures d.inited && !IsSingleTouch(bus) ==>
      && p.driver.touch == d.touch.(state := Released)
      && (p.published.Some? <==> cfg.queueEnabled && d.touch.state == Pressed)
    ensures d.inited && IsSingleTouch(bus) ==>
      && p.driver.touch == PressedSample(cfg, bus.regs)
      && (p.published.Some? <==> cfg.queueEnabled)
    ensures p.published.Some? ==> p.published.value == p.driver.touch && p.driver.channel == Overwrite(d.channel, p.driver.touch)
    ensures p.published.None? ==> p.driver.channel == d.channel
  {
    if !d.inited then
      Poll(d, data, false, None, None)
    else
      var request := Some(BusRequest(cfg.touchPort, d.devAddr, cfg.statusReg, 5));
      if !IsSingleTouch(bus) then
        match d.touch.state
        case Pressed => Publish(cfg, d.(touch := d.touch.(state := Released)), request)
        case Released => Poll(d, Report(d.touch), false, request, None)
      else
        Publish(cfg, d.(touch := PressedSample(cfg, bus.regs)), request)
  }

  /** The tail both sending paths share: report the stored sample and, when the queue is
      built, overwrite it with that sample. */
  function Publish(cfg: Config, d: Driver, request: Option<BusRequest>): Poll
  {
    if cfg.queueEnabled then
      Poll(d.(channel := Overwrite(d.channel, d.touch)), Report(d.touch), false, request, Some(d.touch))
    else
      Poll(d, Report(d.touch), false, request, None)
  }

  /** A failed read, no touch and multi-touch cannot be told apart: every such poll has the
      same effect. */
  lemma NonTouchPollsAgree(cfg: Config, d: Driver, data: Indev, b1: BusRead, b2: BusRead)
    requires !IsSingleTouch(b1) && !IsSingleTouch(b2)
    ensures Read(cfg, d, data, b1) == Read(cfg, d, data, b2)
  {
  }

  /** Release sending is edge-triggered: a second non-touch poll in a row changes nothing,
      reports the same record and sends nothing. */
  lemma SecondReleaseIsSilent(cfg: Config, d: Driver, data: Indev, b1: BusRead, b2: BusRead)
    requires d.inited
    requires !IsSingleTouch(b1) && !IsSingleTouch(b2)
    ensures Read(cfg, Read(cfg, d, data, b1).driver, Read(cfg, d, data, b1).data, b2).driver == Read(cfg, d, data, b1).driver
    ensures Read(cfg, Read(cfg, d, data, b1).driver, Read(cfg, d, data, b1).data, b2).data == Read(cfg, d, data, b1).data
    ensures Read(cfg, Read(cfg, d, data, b1).driver, Read(cfg, d, data, b1).data, b2).published == None
  {
  }

  /** With the queue built, a poll that sends nothing leaves the driver exactly as it was:
      every change of the stored sample is sent. */
  lemma SilentPollChangesNothing(cfg: Config, d: Driver, data: Indev, bus: BusRead)
    requires cfg.queueEnabled
    requires Read(cfg, d, data, bus).published.None?
    ensures Read(cfg, d, data, bus).driver == d
  {
  }

  /** Once the queue holds the stored sample (as right after a successful init), every
      poll keeps it holding the stored sample: the queue never lags behind the driver. */
  lemma ReadKeepsQueueCurrent(cfg: Config, d: Driver, data: Indev, bus: BusRead)
    requires cfg.queueEnabled
    requires d.channel == Queue(Some(d.touch))
    ensures Read(cfg, d, data, bus).driver.channel == Queue(Some(Read(cfg, d, data, bus).driver.touch))
  {
  }

  /** The consumer's receive from the queue: it takes the waiting sample, if any, and
      leaves the slot empty; an absent queue yields nothing. */
  function Take(ch: Channel): (Option<Sample>, Channel)
  {
    match ch
    case Queue(slot) => (slot, Queue(None))
    case NoQueue => (None, NoQueue)
  }

  /** The queue exists and holds either nothing or the stored sample: the state a reader
      of the queue can leave it in. */
  predicate QueueFresh(d: Driver)
  {
    d.channel.Queue? && (d.channel.slot.None? || d.channel.slot == Some(d.touch))
  }

  /** Every poll keeps the queue fresh, whether or not a reader emptied it before. */
  lemma ReadKeepsQueueFresh(cfg: Config, d: Driver, data: Indev, bus: BusRead)
    requires cfg.queueEnabled && QueueFresh(d)
    ensures QueueFresh(Read(cfg, d, data, bus).driver)
  {
  }

  /** A reader taking from a fresh queue gets nothing or the stored sample, and leaves the
      queue fresh. */
  lemma TakeKeepsQueueFresh(d: Driver)
    requires QueueFresh(d)
    ensures Take(d.channel).0.None? || Take(d.channel).0 == Some(d.touch)
    ensures QueueFresh(d.(channel := Take(d.channel).1))
  {
  }

  /** A byte read whose buffer is handed back as is: on failure the buffer still holds
      whatever it held before the call. */
  datatype ByteRead = ReadErr(stale: bv8) | ReadOk(value: bv8)

  /** `ft6x36_get_gesture_id` as written: 0 and no bus access when uninitialised; otherwise
      the buffer's contents after a one-byte read of the gesture register, which on a failed
      read is the uninitialised local. */
  function GestureIdAsWritten(cfg: Config, d: Driver, bus: ByteRead): (r: (bv8, Option<BusRequest>))
    ensures !d.inited ==> r == (0, None)
    ensures d.inited ==> r.1 == Some(BusRequest(cfg.touchPort, d.devAddr, cfg.gestureReg, 1))
    ensures d.inited && bus.ReadOk? ==> r.0 == bus.value
    ensures d.inited && bus.ReadErr? ==> r.0 == bus.stale
  {
    if !d.inited then (0, None)
    else
      var request := Some(BusRequest(cfg.touchPort, d.devAddr, cfg.gestureReg, 1));
      match bus
      case ReadOk(v) => (v, request)
      case ReadErr(stale) => (stale, request)
  }

  /** A failed gesture read does not give 0: whatever non-zero value the buffer held, the
      as-written accessor returns it, where the documented accessor returns 0. */
  lemma GestureIdFailureLeaksBuffer(cfg: Config, d: Driver, stale: bv8)
    requires d.inited && stale != 0
    ensures GestureIdAsWritten(cfg, d, ReadErr(stale)).0 == stale != GestureId(cfg, d, ReadErr(stale)).0
  {
  }

  /** `ft6x36_get_gesture_id` as its documentation promises: the gesture ID, or 0 whenever
      the driver is uninitialised or the read fails. */
  function GestureId(cfg: Config, d: Driver, bus: ByteRead): (r: (bv8, Option<BusRequest>))
    ensures !d.inited ==> r == (0, None)
    ensures d.inited ==> r.1 == Some(BusRequest(cfg.touchPort, d.devAddr, cfg.gestureReg, 1))
    ensures d.inited && bus.ReadErr? ==> r.0 == 0
    ensures bus.ReadOk? ==> r == GestureIdAsWritten(cfg, d, bus)
  {
    if !d.inited then (0, None)
    else
      var request := Some(BusRequest(cfg.touchPort, d.devAddr, cfg.gestureReg, 1));
      match bus
      case ReadOk(v) => (v, request)
      case ReadErr(_) => (0, request)
  }
}
