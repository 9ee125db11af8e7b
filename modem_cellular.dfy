/**
 * The driver's per-device data as an object: the cached modem status the
 * chat callbacks write, the state of the power and connection state
 * machine, the outside state it acts on, and the event queue the
 * callbacks feed and the dispatcher drains. Every hook, handler and
 * callback is a method proved to do what the matching function of
 * CellularSpec describes.
 */
module ModemCellular {
  import opened CLib
  import opened CellularSpec

  /** The capacity of the event ring buffer, in events of one byte each. */
  const EventBufferSize := 8
  const HwinfoSize := 64
  const ENOTSUP := 134

  datatype PipeEvent = PipeOpened | PipeReceiveReady | PipeClosed

  datatype ChatScriptResult = ScriptResultSuccess | ScriptResultAbort | ScriptResultTimeout

  datatype CmuxEvent = CmuxEventConnected | CmuxEventDisconnected

  datatype PmDeviceAction = PmSuspend | PmResume | PmTurnOff | PmTurnOn

  /**
   * ring_buf_put of one event: it is stored behind the queued ones while
   * there is room and is lost when the buffer is full. The queued events
   * stay as they are, in order, and the capacity is never exceeded.
   */
  function Enqueued(q: seq<Event>, e: Event): (r: seq<Event>)
    ensures q <= r && |r| <= |q| + 1
    ensures |q| <= EventBufferSize ==> |r| <= EventBufferSize
    ensures |r| == |q| + 1 <==> |q| < EventBufferSize
    ensures |r| == |q| + 1 ==> r[|q|] == e
  {
    if |q| < EventBufferSize then q + [e] else q
  }

  /** Several events put one after the other. */
  function EnqueuedAll(q: seq<Event>, es: seq<Event>): seq<Event>
    decreases |es|
  {
    if es == [] then q else Enqueued(EnqueuedAll(q, es[..|es| - 1]), es[|es| - 1])
  }

  /**
   * The queue keeps the oldest events: putting a run of events into a
   * queue within its capacity leaves the first eight events of the queue
   * followed by the run, in order, and drops the rest.
   */
  lemma {:induction false} EnqueuedAllKeepsOldest(q: seq<Event>, es: seq<Event>)
    requires |q| <= EventBufferSize
    ensures EnqueuedAll(q, es) == (q + es)[..if |q| + |es| < EventBufferSize then |q| + |es| else EventBufferSize]
    decreases |es|
  {
    if es != [] {
      var init := es[..|es| - 1];
      EnqueuedAllKeepsOldest(q, init);
      assert (q + init) == (q + es)[..|q| + |es| - 1];
    }
  }

  class Modem {
    const cfg: Config
    const imei: array<uint8>
    const hwinfo: array<uint8>
    var accessTech: uint8
    var registrationStatus: uint8
    var packetServiceAttached: uint8
    var state: State
    var env: Env
    /** suspend_atomic: a suspension has been requested. */
    var suspendRequested: bool
    /** The events in the ring buffer, oldest first. */
    var events: seq<Event>
    /** The dispatch work item has been submitted and has not run since. */
    var dispatchPending: bool

    ghost predicate Valid()
      reads this, hwinfo
    {
      && imei.Length == ImeiLength
      && hwinfo.Length == HwinfoSize
      && imei != hwinfo
      && hwinfo[HwinfoSize - 1] == Nul
      && |events| <= EventBufferSize
      && GpioConsistent(cfg, state)
    }

    /**
     * The zero-initialised device data in IDLE, with the power pin
     * configured inactive and the reset pin active.
     */
    constructor (cfg: Config)
      ensures Valid()
      ensures this.cfg == cfg && state == Idle && events == [] && !suspendRequested && !dispatchPending
      ensures env == Env(false, GpioIsEnabled(cfg.resetGpio), NotScheduled, 0, [])
      ensures imei[..] == seq(ImeiLength, i => Nul) && hwinfo[..] == seq(HwinfoSize, i => Nul)
      ensures accessTech == 0 && registrationStatus == 0 && packetServiceAttached == 0
      ensures fresh(imei) && fresh(hwinfo)
    {
      this.cfg := cfg;
      imei := new uint8[ImeiLength](i => Nul);
      hwinfo := new uint8[HwinfoSize](i => Nul);
      accessTech := 0;
      registrationStatus := 0;
      packetServiceAttached := 0;
      state := Idle;
      env := Env(false, GpioIsEnabled(cfg.resetGpio), NotScheduled, 0, []);
      suspendRequested := false;
      events := [];
      dispatchPending := false;
    }

    /** modem_cellular_is_registered on the cached status. */
    function Registered(): (r: bool)
      reads this
      ensures r <==> CregStatus(registrationStatus) == RegisteredRoaming && CgattAttached(packetServiceAttached)
    {
      IsRegistered(registrationStatus, packetServiceAttached)
    }

    // -------------------------------------------------------------------
    // The outside world

    /** A call into a library, which answers with its return code. */
    method LibraryCall(c: Call, lib: Library) returns (ret: int)
      modifies this`env
      ensures env == Logged(old(env), c) && ret == lib(old(env).calls, c)
    {
      ret := lib(env.calls, c);
      env := Logged(env, c);
    }

    /** gpio_pin_set_dt, which needs a configured GPIO. */
    method GpioPinSetDt(g: Gpio, level: bool)
      requires Enabled(cfg, g)
      modifies this`env
      ensures env == PinWritten(old(env), g, level)
    {
      env := PinWritten(env, g, level);
    }

    /** gpio_pin_get_dt, which needs a configured GPIO. */
    function GpioPinGetDt(g: Gpio): (level: bool)
      requires Enabled(cfg, g)
      reads this
      ensures g == PowerGpio ==> level == env.powerPin
      ensures g == ResetGpio ==> level == env.resetPin
    {
      PinLevel(env, g)
    }

    method StartTimer(ms: nat)
      modifies this`env
      ensures env == TimerStarted(old(env), ms)
    {
      env := TimerStarted(env, ms);
    }

    method StopTimer()
      modifies this`env
      ensures env == TimerStopped(old(env))
    {
      env := TimerStopped(env);
    }

    method GiveSuspendedSem()
      modifies this`env
      ensures env == SemGiven(old(env))
    {
      env := SemGiven(env);
    }

    // -------------------------------------------------------------------
    // Leave and enter hooks

    method OnIdleStateLeave(lib: Library) returns (ret: int)
      modifies this`env
      ensures env == Leave(Idle, old(env)) && ret == LeaveCode(Idle, old(env), lib)
    {
      ret := LibraryCall(PipeOpen(UartPipe), lib);
    }

    method OnPowerOnStateEnter(lib: Library) returns (ret: int)
      requires GpioConsistent(cfg, PowerOn)
      modifies this`env
      ensures env == Enter(PowerOn, cfg, old(env), lib) && ret == EnterCode(PowerOn, old(env), lib)
    {
      if GpioIsEnabled(cfg.powerGpio) {
        GpioPinSetDt(PowerGpio, true);
        StartTimer(PowerGpioPulseMs);
      } else {
        GpioPinSetDt(ResetGpio, true);
        StartTimer(ResetGpioPulseMs);
      }
      ret := 0;
    }

    method OnRunInitScriptStateEnter(lib: Library) returns (ret: int)
      modifies this`env
      ensures env == Enter(RunInitScript, cfg, old(env), lib) && ret == EnterCode(RunInitScript, old(env), lib)
    {
      var attached := LibraryCall(ChatAttach(UartPipe), lib);
      if attached < 0 {
        return -EAGAIN;
      }
      ret := LibraryCall(ChatScriptRun(InitChatScript), lib);
    }

    method OnRunInitScriptStateLeave(lib: Library) returns (ret: int)
      modifies this`env
      ensures env == Leave(RunInitScript, old(env)) && ret == LeaveCode(RunInitScript, old(env), lib)
    {
      var _ := LibraryCall(ChatRelease, lib);
      ret := 0;
    }

    method OnConnectCmuxStateEnter(lib: Library) returns (ret: int)
      modifies this`env
      ensures env == Enter(ConnectCmux, cfg, old(env), lib) && ret == EnterCode(ConnectCmux, old(env), lib)
    {
      var attached := LibraryCall(CmuxAttach(UartPipe), lib);
      if attached < 0 {
        return -EAGAIN;
      }
      StartTimer(500);
      ret := 0;
    }

    method OnOpenDlci1StateEnter(lib: Library) returns (ret: int)
      modifies this`env
      ensures env == Enter(OpenDlci1, cfg, old(env), lib) && ret == EnterCode(OpenDlci1, old(env), lib)
    {
      var _ := LibraryCall(PipeAttach(Dlci1Pipe), lib);
      ret := LibraryCall(PipeOpenAsync(Dlci1Pipe), lib);
    }

    method OnOpenDlci1StateLeave(lib: Library) returns (ret: int)
      modifies this`env
      ensures env == Leave(OpenDlci1, old(env)) && ret == LeaveCode(OpenDlci1, old(env), lib)
    {
      var _ := LibraryCall(PipeRelease(Dlci1Pipe), lib);
      ret := 0;
    }

    method OnOpenDlci2StateEnter(lib: Library) returns (ret: int)
      modifies this`env
      ensures env == Enter(OpenDlci2, cfg, old(env), lib) && ret == EnterCode(OpenDlci2, old(env), lib)
    {
      var _ := LibraryCall(PipeAttach(Dlci2Pipe), lib);
      ret := LibraryCall(PipeOpenAsync(Dlci2Pipe), lib);
    }

    method OnOpenDlci2StateLeave(lib: Library) returns (ret: int)
      modifies this`env
      ensures env == Leave(OpenDlci2, old(env)) && ret == LeaveCode(OpenDlci2, old(env), lib)
    {
      var _ := LibraryCall(PipeRelease(Dlci2Pipe), lib);
      ret := 0;
    }

    method OnRunDialScriptStateEnter(lib: Library) returns (ret: int)
      modifies this`env
      ensures env == Enter(RunDialScript, cfg, old(env), lib) && ret == EnterCode(RunDialScript, old(env), lib)
    {
      var attached := LibraryCall(ChatAttach(Dlci2Pipe), lib);
      if attached < 0 {
        return -EAGAIN;
      }
      StartTimer(500);
      ret := 0;
    }

    method OnRunDialScriptStateLeave(lib: Library) returns (ret: int)
      modifies this`env
      ensures env == Leave(RunDialScript, old(env)) && ret == LeaveCode(RunDialScript, old(env), lib)
    {
      var _ := LibraryCall(ChatRelease, lib);
      ret := LibraryCall(PppAttach(Dlci2Pipe), lib);
    }

    method OnRegisterStateEnter(lib: Library) returns (ret: int)
      modifies this`env
      ensures env == Enter(Register, cfg, old(env), lib) && ret == EnterCode(Register, old(env), lib)
    {
      var attached := LibraryCall(ChatAttach(Dlci1Pipe), lib);
      if attached < 0 {
        return -EAGAIN;
      }
      StartTimer(2000);
      ret := LibraryCall(ChatScriptRun(NetStatChatScript), lib);
    }

    method OnRegisterStateLeave(lib: Library) returns (ret: int)
      modifies this`env
      ensures env == Leave(Register, old(env)) && ret == LeaveCode(Register, old(env), lib)
    {
      StopTimer();
      var _ := LibraryCall(ChatRelease, lib);
      ret := 0;
    }

    method OnCarrierOnStateEnter(lib: Library) returns (ret: int)
      modifies this`env
      ensures env == Enter(CarrierOn, cfg, old(env), lib) && ret == EnterCode(CarrierOn, old(env), lib)
    {
      var _ := LibraryCall(IfaceCarrierOn, lib);
      var _ := LibraryCall(ChatAttach(Dlci1Pipe), lib);
      var _ := LibraryCall(ChatScriptRun(NetStatChatScript), lib);
      StartTimer(4000);
      ret := 0;
    }

    method OnCarrierOnStateLeave(lib: Library) returns (ret: int)
      modifies this`env
      ensures env == Leave(CarrierOn, old(env)) && ret == LeaveCode(CarrierOn, old(env), lib)
    {
      StopTimer();
      var _ := LibraryCall(ChatScriptAbort, lib);
      var _ := LibraryCall(ChatRelease, lib);
      var _ := LibraryCall(PppRelease, lib);
      ret := 0;
    }

    method OnCarrierOffStateEnter(lib: Library) returns (ret: int)
      modifies this`env
      ensures env == Enter(CarrierOff, cfg, old(env), lib) && ret == EnterCode(CarrierOff, old(env), lib)
    {
      var _ := LibraryCall(IfaceCarrierOff, lib);
      StartTimer(1000);
      ret := 0;
    }

    method OnPowerOffStateEnter(lib: Library) returns (ret: int)
      requires GpioConsistent(cfg, PowerOff)
      modifies this`env
      ensures env == Enter(PowerOff, cfg, old(env), lib) && ret == EnterCode(PowerOff, old(env), lib)
    {
      var _ := LibraryCall(CmuxRelease, lib);
      var _ := LibraryCall(PipeClose(UartPipe), lib);
      GpioPinSetDt(PowerGpio, true);
      StartTimer(PowerGpioPulseMs);
      ret := 0;
    }

    method OnPowerOffStateLeave(lib: Library) returns (ret: int)
      modifies this`env
      ensures env == Leave(PowerOff, old(env)) && ret == LeaveCode(PowerOff, old(env), lib)
    {
      GiveSuspendedSem();
      ret := 0;
    }

    /** The enter hook of the current state; states without one succeed. */
    method OnStateEnter(lib: Library) returns (ret: int)
      requires GpioConsistent(cfg, state)
      modifies this`env
      ensures env == Enter(state, cfg, old(env), lib) && ret == EnterCode(state, old(env), lib)
    {
      match state
      case PowerOn => ret := OnPowerOnStateEnter(lib);
      case RunInitScript => ret := OnRunInitScriptStateEnter(lib);
      case ConnectCmux => ret := OnConnectCmuxStateEnter(lib);
      case OpenDlci1 => ret := OnOpenDlci1StateEnter(lib);
      case OpenDlci2 => ret := OnOpenDlci2StateEnter(lib);
      case RunDialScript => ret := OnRunDialScriptStateEnter(lib);
      case Register => ret := OnRegisterStateEnter(lib);
      case CarrierOn => ret := OnCarrierOnStateEnter(lib);
      case CarrierOff => ret := OnCarrierOffStateEnter(lib);
      case PowerOff => ret := OnPowerOffStateEnter(lib);
      case Idle => ret := 0;
    }

    /** The leave hook of the current state; states without one succeed. */
    method OnStateLeave(lib: Library) returns (ret: int)
      modifies this`env
      ensures env == Leave(state, old(env)) && ret == LeaveCode(state, old(env), lib)
    {
      match state
      case Idle => ret := OnIdleStateLeave(lib);
      case RunInitScript => ret := OnRunInitScriptStateLeave(lib);
      case OpenDlci1 => ret := OnOpenDlci1StateLeave(lib);
      case OpenDlci2 => ret := OnOpenDlci2StateLeave(lib);
      case RunDialScript => ret := OnRunDialScriptStateLeave(lib);
      case Register => ret := OnRegisterStateLeave(lib);
      case CarrierOn => ret := OnCarrierOnStateLeave(lib);
      case PowerOff => ret := OnPowerOffStateLeave(lib);
      case PowerOn => ret := 0;
      case ConnectCmux => ret := 0;
      case CarrierOff => ret := 0;
    }

    /** modem_cellular_enter_state */
    method EnterState(target: State, lib: Library)
      requires Valid() && GpioConsistent(cfg, target)
      modifies this`state, this`env
      ensures Valid()
      ensures (state, env) == Transition(old(state), target, cfg, old(env), lib)
    {
      var ret := OnStateLeave(lib);
      if ret < 0 {
        return;
      }
      state := target;
      ret := OnStateEnter(lib);
    }

    // -------------------------------------------------------------------
    // Event handlers, one per state

    method IdleEventHandler(evt: Event, lib: Library)
      requires Valid() && state == Idle
      modifies this`state, this`env
      ensures Valid()
      ensures (state, env) == IdleStep(evt, cfg, old(env), lib)
    {
      if evt == Resume {
        if GpioIsEnabled(cfg.powerGpio) || GpioIsEnabled(cfg.resetGpio) {
          EnterState(PowerOn, lib);
          return;
        }
        EnterState(RunInitScript, lib);
      }
    }

    method PowerOnEventHandler(evt: Event, lib: Library)
      requires Valid() && state == PowerOn
      modifies this`state, this`env
      ensures Valid()
      ensures (state, env) == PowerOnStep(evt, cfg, old(env), lib)
    {
      if evt == Timeout {
        if GpioIsEnabled(cfg.powerGpio) && GpioPinGetDt(PowerGpio) {
          GpioPinSetDt(PowerGpio, false);
          StartTimer(StartupTimeMs);
          return;
        }
        if GpioIsEnabled(cfg.resetGpio) && GpioPinGetDt(ResetGpio) {
          GpioPinSetDt(ResetGpio, false);
          StartTimer(StartupTimeMs);
          return;
        }
        EnterState(RunInitScript, lib);
      }
    }

    method RunInitScriptEventHandler(evt: Event, lib: Library)
      requires Valid() && state == RunInitScript
      modifies this`state, this`env
      ensures Valid()
      ensures (state, env) == RunInitScriptStep(evt, cfg, old(env), imei[..], lib)
    {
      if evt == ScriptSuccess {
        var _ := LibraryCall(SetLinkAddr(imei[..]), lib);
        EnterState(ConnectCmux, lib);
      } else if evt == ScriptFailed {
        if GpioIsEnabled(cfg.powerGpio) {
          EnterState(PowerOn, lib);
          return;
        }
        EnterState(RunInitScript, lib);
      }
    }

    method ConnectCmuxEventHandler(evt: Event, lib: Library)
      requires Valid() && state == ConnectCmux
      modifies this`state, this`env
      ensures Valid()
      ensures (state, env) == ConnectCmuxStep(evt, cfg, old(env), lib)
    {
      if evt == Timeout {
        var _ := LibraryCall(CmuxConnectAsync, lib);
      } else if evt == CmuxConnected {
        EnterState(OpenDlci1, lib);
      }
    }

    method OpenDlci1EventHandler(evt: Event, lib: Library)
      requires Valid() && state == OpenDlci1
      modifies this`state, this`env
      ensures Valid()
      ensures (state, env) == OpenDlci1Step(evt, cfg, old(env), lib)
    {
      if evt == Dlci1Opened {
        EnterState(OpenDlci2, lib);
      }
    }

    method OpenDlci2EventHandler(evt: Event, lib: Library)
      requires Valid() && state == OpenDlci2
      modifies this`state, this`env
      ensures Valid()
      ensures (state, env) == OpenDlci2Step(evt, cfg, old(env), lib)
    {
      if evt == Dlci2Opened {
        EnterState(RunDialScript, lib);
      }
    }

    method RunDialScriptEventHandler(evt: Event, lib: Library)
      requires Valid() && state == RunDialScript
      modifies this`state, this`env
      ensures Valid()
      ensures (state, env) == RunDialScriptStep(evt, cfg, old(env), lib)
    {
      if evt == Timeout {
        var _ := LibraryCall(ChatScriptRun(ConnectChatScript), lib);
      } else if evt == ScriptFailed {
        StartTimer(500);
      } else if evt == ScriptSuccess {
        EnterState(Register, lib);
      }
    }

    method RegisterEventHandler(evt: Event, lib: Library)
      requires Valid() && state == Register
      modifies this`state, this`env
      ensures Valid()
      ensures (state, env) == RegisterStep(evt, cfg, old(env), Registered(), lib)
    {
      if evt == Suspend {
        if GpioIsEnabled(cfg.powerGpio) {
          EnterState(PowerOff, lib);
        } else {
          EnterState(Idle, lib);
        }
      } else if evt == ScriptSuccess {
        if Registered() {
          EnterState(CarrierOn, lib);
        }
      } else if evt == Timeout {
        StartTimer(2000);
        var _ := LibraryCall(ChatScriptRun(NetStatChatScript), lib);
      }
    }

    method CarrierOnEventHandler(evt: Event, lib: Library)
      requires Valid() && state == CarrierOn
      modifies this`state, this`env
      ensures Valid()
      ensures (state, env) == CarrierOnStep(evt, cfg, old(env), Registered(), lib)
    {
      if evt == Suspend {
        EnterState(CarrierOff, lib);
      } else if evt == ScriptSuccess {
        if !Registered() {
          EnterState(RunDialScript, lib);
        }
      } else if evt == Timeout {
        var _ := LibraryCall(ChatScriptRun(NetStatChatScript), lib);
        StartTimer(4000);
      }
    }

    method CarrierOffEventHandler(evt: Event, lib: Library)
      requires Valid() && state == CarrierOff
      modifies this`state, this`env
      ensures Valid()
      ensures (state, env) == CarrierOffStep(evt, cfg, old(env), lib)
    {
      if evt == Timeout {
        if GpioIsEnabled(cfg.powerGpio) {
          EnterState(PowerOff, lib);
          return;
        }
        if GpioIsEnabled(cfg.resetGpio) {
          GpioPinSetDt(ResetGpio, true);
        }
        EnterState(Idle, lib);
      }
    }

    method PowerOffEventHandler(evt: Event, lib: Library)
      requires Valid() && state == PowerOff
      modifies this`state, this`env
      ensures Valid()
      ensures (state, env) == PowerOffStep(evt, cfg, old(env), lib)
    {
      if evt == Timeout {
        if GpioPinGetDt(PowerGpio) {
          GpioPinSetDt(PowerGpio, false);
          StartTimer(ShutdownTimeMs);
          return;
        }
        EnterState(Idle, lib);
      }
    }

    /** modem_cellular_event_handler: the handler of the current state. */
    method EventHandler(evt: Event, lib: Library)
      requires Valid()
      modifies this`state, this`env
      ensures Valid()
      ensures (state, env) == React(old(state), evt, cfg, old(env), Registered(), imei[..], lib)
    {
      match state
      case Idle => IdleEventHandler(evt, lib);
      case PowerOn => PowerOnEventHandler(evt, lib);
      case RunInitScript => RunInitScriptEventHandler(evt, lib);
      case ConnectCmux => ConnectCmuxEventHandler(evt, lib);
      case OpenDlci1 => OpenDlci1EventHandler(evt, lib);
      case OpenDlci2 => OpenDlci2EventHandler(evt, lib);
      case RunDialScript => RunDialScriptEventHandler(evt, lib);
      case Register => RegisterEventHandler(evt, lib);
      case CarrierOn => CarrierOnEventHandler(evt, lib);
      case CarrierOff => CarrierOffEventHandler(evt, lib);
      case PowerOff => PowerOffEventHandler(evt, lib);
    }

    // -------------------------------------------------------------------
    // The event queue

    /** modem_cellular_delegate_event: queue the event and submit the dispatch work. */
    method DelegateEvent(evt: Event)
      requires |events| <= EventBufferSize
      modifies this`events, this`dispatchPending
      ensures old(Valid()) ==> Valid()
      ensures events == Enqueued(old(events), evt) && |events| <= EventBufferSize
      ensures dispatchPending
    {
      if |events| < EventBufferSize {
        events := events + [evt];
      }
      dispatchPending := true;
    }

    /**
     * modem_cellular_event_dispatch_handler: take every queued event (there
     * are never more than the buffer holds), hand them to the event handler
     * oldest first, then hand it SUSPEND once more when a suspension is
     * requested.
     */
    method EventDispatchHandler(lib: Library)
      requires Valid()
      modifies this`state, this`env, this`events, this`dispatchPending
      ensures Valid()
      ensures events == [] && !dispatchPending
      ensures (state, env) ==
        Run(old(state), old(env), old(events) + (if suspendRequested then [Suspend] else []),
            cfg, Registered(), imei[..], lib)
    {
      dispatchPending := false;
      ghost var s0, e0, registered, id := state, env, Registered(), imei[..];
      var drained := events;
      events := [];
      var i := 0;
      while i < |drained|
        invariant 0 <= i <= |drained| && Valid() && events == [] && !dispatchPending
        invariant Registered() == registered && imei[..] == id
        invariant (state, env) == Run(s0, e0, drained[..i], cfg, registered, id, lib)
      {
        RunSnoc(s0, e0, drained[..i], drained[i], cfg, registered, id, lib);
        assert drained[..i + 1] == drained[..i] + [drained[i]];
        EventHandler(drained[i], lib);
        i := i + 1;
      }
      assert drained[..i] == drained;
      if suspendRequested {
        RunSnoc(s0, e0, drained, Suspend, cfg, registered, id, lib);
        EventHandler(Suspend, lib);
      } else {
        assert drained + [] == drained;
      }
    }

    // -------------------------------------------------------------------
    // Callbacks of the pipes, the chat scripts, CMUX and the timer

    method Dlci1PipeHandler(event: PipeEvent)
      requires |events| <= EventBufferSize
      modifies this`events, this`dispatchPending
      ensures old(Valid()) ==> Valid()
      ensures |events| <= EventBufferSize
      ensures event == PipeOpened ==> events == Enqueued(old(events), Dlci1Opened) && dispatchPending
      ensures event != PipeOpened ==> events == old(events) && dispatchPending == old(dispatchPending)
    {
      if event == PipeOpened {
        DelegateEvent(Dlci1Opened);
      }
    }

    method Dlci2PipeHandler(event: PipeEvent)
      requires |events| <= EventBufferSize
      modifies this`events, this`dispatchPending
      ensures old(Valid()) ==> Valid()
      ensures |events| <= EventBufferSize
      ensures event == PipeOpened ==> events == Enqueued(old(events), Dlci2Opened) && dispatchPending
      ensures event != PipeOpened ==> events == old(events) && dispatchPending == old(dispatchPending)
    {
      if event == PipeOpened {
        DelegateEvent(Dlci2Opened);
      }
    }

    /** A chat script that ends in success reports SCRIPT_SUCCESS; an abort or a timeout reports SCRIPT_FAILED. */
    method ChatCallbackHandler(result: ChatScriptResult)
      requires |events| <= EventBufferSize
      modifies this`events, this`dispatchPending
      ensures old(Valid()) ==> Valid()
      ensures |events| <= EventBufferSize && dispatchPending
      ensures events == Enqueued(old(events), if result == ScriptResultSuccess then ScriptSuccess else ScriptFailed)
    {
      if result == ScriptResultSuccess {
        DelegateEvent(ScriptSuccess);
      } else {
        DelegateEvent(ScriptFailed);
      }
    }

    method CmuxHandler(event: CmuxEvent)
      requires |events| <= EventBufferSize
      modifies this`events, this`dispatchPending
      ensures old(Valid()) ==> Valid()
      ensures |events| <= EventBufferSize
      ensures event == CmuxEventConnected ==> events == Enqueued(old(events), CmuxConnected) && dispatchPending
      ensures event != CmuxEventConnected ==> events == old(events) && dispatchPending == old(dispatchPending)
    {
      if event == CmuxEventConnected {
        DelegateEvent(CmuxConnected);
      }
    }

    method TimeoutHandler()
      requires |events| <= EventBufferSize
      modifies this`events, this`dispatchPending
      ensures old(Valid()) ==> Valid()
      ensures |events| <= EventBufferSize && dispatchPending
      ensures events == Enqueued(old(events), Timeout)
    {
      DelegateEvent(Timeout);
    }

    // -------------------------------------------------------------------
    // Chat match callbacks, writing the cached status

    /** +CGSN: the IMEI, stored digit by digit when the answer is 15 characters long. */
    method ChatOnImei(argv: seq<Bytes>)
      requires Valid()
      modifies imei
      ensures Valid()
      ensures imei[..] == ImeiAfter(old(imei[..]), argv)
    {
      if |argv| != 2 {
        return;
      }
      if Strlen(argv[1]) != 15 {
        return;
      }
      var i: uint8 := 0;
      while i < 15
        invariant 0 <= i <= 15
        invariant forall k :: 0 <= k < i ==> imei[k] == ImeiDigits(argv[1])[k]
      {
        imei[i] := ToUint8(argv[1][i] - AsciiZero);
        i := i + 1;
      }
      assert imei[..] == ImeiDigits(argv[1]);
    }

    /** +CGMM: the model name, copied into hwinfo, whose last byte stays NUL. */
    method ChatOnCgmm(argv: seq<Bytes>)
      requires Valid()
      modifies hwinfo
      ensures Valid()
      ensures |argv| != 2 ==> hwinfo[..] == old(hwinfo[..])
      ensures |argv| == 2 ==> hwinfo[..] == Strncpy(old(hwinfo[..]), argv[1], HwinfoSize - 1)
      ensures |argv| == 2 ==>
        CString(hwinfo[..]) == CString(argv[1])[..if Strlen(argv[1]) < HwinfoSize - 1 then Strlen(argv[1]) else HwinfoSize - 1]
    {
      if |argv| != 2 {
        return;
      }
      StrncpyInto(hwinfo, argv[1], HwinfoSize - 1);
      StrncpyReadsBack(old(hwinfo[..]), argv[1], HwinfoSize - 1);
    }

    /** +CREG: the first field into access_tech and the second into registration_status, each through atoi. */
    method ChatOnCreg(argv: seq<Bytes>)
      modifies this`accessTech, this`registrationStatus
      ensures old(Valid()) ==> Valid()
      ensures |argv| != 3 ==> accessTech == old(accessTech) && registrationStatus == old(registrationStatus)
      ensures |argv| == 3 ==> accessTech == AtoiUint8(argv[1]) && registrationStatus == AtoiUint8(argv[2])
    {
      if |argv| != 3 {
        return;
      }
      accessTech := AtoiUint8(argv[1]);
      registrationStatus := AtoiUint8(argv[2]);
    }

    /** +CGATT: the attach state into packet_service_attached through atoi. */
    method ChatOnCgatt(argv: seq<Bytes>)
      modifies this`packetServiceAttached
      ensures old(Valid()) ==> Valid()
      ensures |argv| != 2 ==> packetServiceAttached == old(packetServiceAttached)
      ensures |argv| == 2 ==> packetServiceAttached == AtoiUint8(argv[1])
    {
      if |argv| != 2 {
        return;
      }
      packetServiceAttached := AtoiUint8(argv[1]);
    }

    // -------------------------------------------------------------------
    // Power management

    /**
     * modem_cellular_pm_action: RESUME clears the suspension request and
     * queues RESUME; SUSPEND sets the request and takes the suspended
     * semaphore, failing with -EAGAIN when it is not available; any other
     * action is not supported.
     */
    method PmAction(action: PmDeviceAction) returns (ret: int)
      requires |events| <= EventBufferSize
      modifies this`suspendRequested, this`events, this`dispatchPending, this`env
      ensures old(Valid()) ==> Valid()
      ensures |events| <= EventBufferSize
      ensures action == PmResume ==>
        ret == 0 && !suspendRequested && events == Enqueued(old(events), Resume) && dispatchPending && env == old(env)
      ensures action == PmSuspend ==>
        && suspendRequested && events == old(events) && dispatchPending == old(dispatchPending)
        && (old(env.suspendedSem) > 0 ==> ret == 0 && env == old(env).(suspendedSem := old(env.suspendedSem) - 1))
        && (old(env.suspendedSem) == 0 ==> ret == -EAGAIN && env == old(env))
      ensures action != PmResume && action != PmSuspend ==>
        ret == -ENOTSUP && unchanged(this)
    {
      match action
      case PmResume =>
        suspendRequested := false;
        DelegateEvent(Resume);
        ret := 0;
      case PmSuspend =>
        suspendRequested := true;
        if env.suspendedSem > 0 {
          env := env.(suspendedSem := env.suspendedSem - 1);
          ret := 0;
        } else {
          ret := -EAGAIN;
        }
      case _ =>
        ret := -ENOTSUP;
    }
  }

  /** strncpy into a buffer: the first n bytes from src, NUL padded, the rest untouched. */
  method StrncpyInto(dest: array<uint8>, src: Bytes, n: nat)
    requires n <= dest.Length
    modifies dest
    ensures dest[..] == Strncpy(old(dest[..]), src, n)
  {
    var i := 0;
    while i < n
      invariant 0 <= i <= n
      invariant forall k :: 0 <= k < i ==> dest[k] == StrncpyByte(old(dest[..]), src, n, k)
      invariant forall k :: i <= k < dest.Length ==> dest[k] == old(dest[k])
    {
      dest[i] := if i < Strlen(src) then src[i] else Nul;
      i := i + 1;
    }
    assert dest[..] == Strncpy(old(dest[..]), src, n);
  }
}
