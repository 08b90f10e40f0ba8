/** Successive polls of an initialised driver, and what they add up to: how often the queue
    is written, what state and coordinates are left stored, and what the queue holds. */
module Polling {
  import opened Machine
  import opened Wrappers
  import opened Registers
  import opened Orientation
  import opened Ft6x36

  /** The result of a run of polls: final driver state, the caller's record as last written,
      and every sample sent to the queue, oldest first. */
  datatype Trace = Trace(driver: Driver, data: Indev, published: seq<Sample>)

  function Sent(o: Option<Sample>): seq<Sample>
  {
    if o.Some? then [o.value] else []
  }

  /** The polls applied in order, one bus result per poll. Address and init flag never
      change, at most one sample is sent per poll, and an uninitialised driver stays
      exactly as it was. */
  function Run(cfg: Config, d: Driver, data: Indev, polls: seq<BusRead>): (t: Trace)
    ensures t.driver.inited == d.inited && t.driver.devAddr == d.devAddr
    ensures |t.published| <= |polls|
    ensures !d.inited ==> t == Trace(d, data, [])
    decreases |polls|
  {
    if |polls| == 0 then Trace(d, data, [])
    else
      var before := Run(cfg, d, data, polls[..|polls| - 1]);
      var p := Read(cfg, before.driver, before.data, polls[|polls| - 1]);
      Trace(p.driver, p.data, before.published + Sent(p.published))
  }

  /** Reference definitions over the bus results alone. */

  /** The number of polls that reported exactly one touch point. */
  function Touches(polls: seq<BusRead>): nat
  {
    if |polls| == 0 then 0
    else Touches(polls[..|polls| - 1]) + (if IsSingleTouch(polls[|polls| - 1]) then 1 else 0)
  }

  /** The touch state after a run depends only on its last poll. */
  function StateAfter(start: TouchState, polls: seq<BusRead>): TouchState
  {
    if |polls| == 0 then start
    else if IsSingleTouch(polls[|polls| - 1]) then Pressed
    else Released
  }

  /** The number of non-touch polls that directly follow a touch poll (or, for the first
      poll, a Pressed starting state). */
  function ReleaseEdges(start: TouchState, polls: seq<BusRead>): nat
  {
    if |polls| == 0 then 0
    else
      var prefix := polls[..|polls| - 1];
      ReleaseEdges(start, prefix)
        + (if !IsSingleTouch(polls[|polls| - 1]) && StateAfter(start, prefix) == Pressed then 1 else 0)
  }

  /** The last register block in the run that reported exactly one touch point. */
  function LastTouch(polls: seq<BusRead>): Option<TouchRegs>
  {
    if |polls| == 0 then None
    else if IsSingleTouch(polls[|polls| - 1]) then Some(polls[|polls| - 1].regs)
    else LastTouch(polls[..|polls| - 1])
  }

  /** After a run the stored state is Pressed exactly when the last poll reported one
      touch point. */
  lemma RunState(cfg: Config, d: Driver, data: Indev, polls: seq<BusRead>)
    requires d.inited
    ensures Run(cfg, d, data, polls).driver.touch.state == StateAfter(d.touch.state, polls)
  {
  }

  /** Coordinates are sticky: after a run they are those of the last single-touch poll,
      decoded and oriented, or the starting ones when no poll reported a single touch. */
  lemma {:induction false} RunCoordinates(cfg: Config, d: Driver, data: Indev, polls: seq<BusRead>)
    requires d.inited
    ensures var s := Run(cfg, d, data, polls).driver.touch;
      Point(s.lastX, s.lastY) ==
        match LastTouch(polls)
        case None => Point(d.touch.lastX, d.touch.lastY)
        case Some(r) => Orient(cfg.transform, Point(RawX(cfg.masks, r), RawY(cfg.masks, r)))
  {
    if |polls| > 0 {
      RunCoordinates(cfg, d, data, polls[..|polls| - 1]);
    }
  }

  /** After at least one poll the caller's record shows the stored sample. */
  lemma RunReportsStored(cfg: Config, d: Driver, data: Indev, polls: seq<BusRead>)
    requires d.inited && |polls| > 0
    ensures Run(cfg, d, data, polls).data == Report(Run(cfg, d, data, polls).driver.touch)
  {
  }

  /** With the queue built, a run sends once per single-touch poll (level-triggered) plus
      once per Pressed-to-Released edge (edge-triggered), and at no other time. */
  lemma {:induction false} RunPublishCount(cfg: Config, d: Driver, data: Indev, polls: seq<BusRead>)
    requires d.inited && cfg.queueEnabled
    ensures |Run(cfg, d, data, polls).published| == Touches(polls) + ReleaseEdges(d.touch.state, polls)
  {
    if |polls| > 0 {
      var prefix := polls[..|polls| - 1];
      RunPublishCount(cfg, d, data, prefix);
      RunState(cfg, d, data, prefix);
    }
  }

  /** Without the queue nothing is ever sent and the channel is never touched. */
  lemma {:induction false} RunWithoutQueue(cfg: Config, d: Driver, data: Indev, polls: seq<BusRead>)
    requires !cfg.queueEnabled
    ensures Run(cfg, d, data, polls).published == []
    ensures Run(cfg, d, data, polls).driver.channel == d.channel
  {
    if |polls| > 0 {
      RunWithoutQueue(cfg, d, data, polls[..|polls| - 1]);
    }
  }

  /** N polls in a row that each report one touch point send N samples. */
  lemma {:induction false} PressesPublishEach(cfg: Config, d: Driver, data: Indev, polls: seq<BusRead>)
    requires d.inited && cfg.queueEnabled
    requires forall i :: 0 <= i < |polls| ==> IsSingleTouch(polls[i])
    ensures |Run(cfg, d, data, polls).published| == |polls|
  {
    AllTouches(polls);
    RunPublishCount(cfg, d, data, polls);
  }

  lemma {:induction false} AllTouches(polls: seq<BusRead>)
    requires forall i :: 0 <= i < |polls| ==> IsSingleTouch(polls[i])
    ensures Touches(polls) == |polls|
    ensures forall start :: ReleaseEdges(start, polls) == 0
  {
    if |polls| > 0 {
      AllTouches(polls[..|polls| - 1]);
    }
  }

  /** Polling a released driver with no touch, any number of times, changes nothing and
      sends nothing; each poll reports the same stored sample. */
  lemma {:induction false} ReleasedIdle(cfg: Config, d: Driver, data: Indev, polls: seq<BusRead>)
    requires d.inited && d.touch.state == Released
    requires forall i :: 0 <= i < |polls| ==> !IsSingleTouch(polls[i])
    ensures Run(cfg, d, data, polls).driver == d
    ensures Run(cfg, d, data, polls).published == []
    ensures |polls| > 0 ==> Run(cfg, d, data, polls).data == Report(d.touch)
  {
    if |polls| > 0 {
      ReleasedIdle(cfg, d, data, polls[..|polls| - 1]);
    }
  }

  /** Once the queue holds the stored sample, it keeps holding it through any run, and the
      latest sample sent is the stored one. */
  lemma {:induction false} RunKeepsQueueCurrent(cfg: Config, d: Driver, data: Indev, polls: seq<BusRead>)
    requires d.inited && cfg.queueEnabled
    requires d.channel == Queue(Some(d.touch))
    ensures Run(cfg, d, data, polls).driver.channel == Queue(Some(Run(cfg, d, data, polls).driver.touch))
    ensures var t := Run(cfg, d, data, polls);
      |t.published| > 0 ==> t.published[|t.published| - 1] == t.driver.touch
  {
    if |polls| > 0 {
      var prefix := polls[..|polls| - 1];
      RunKeepsQueueCurrent(cfg, d, data, prefix);
      var before := Run(cfg, d, data, prefix);
      ReadKeepsQueueCurrent(cfg, before.driver, before.data, polls[|polls| - 1]);
      if Read(cfg, before.driver, before.data, polls[|polls| - 1]).published.None? {
        SilentPollChangesNothing(cfg, before.driver, before.data, polls[|polls| - 1]);
      }
    }
  }

  /** From power-on, initialising with a successfully created queue and then polling any
      number of times leaves the queue holding exactly the stored sample. */
  lemma QueueMirrorsSampleAfterInit(cfg: Config, addr: UInt16, data: Indev, polls: seq<BusRead>)
    requires cfg.queueEnabled
    ensures var t := Run(cfg, Init(cfg, PowerOn, addr, true), data, polls);
      t.driver.channel == Queue(Some(t.driver.touch))
  {
    RunKeepsQueueCurrent(cfg, Init(cfg, PowerOn, addr, true), data, polls);
  }
}
