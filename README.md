# Cellular modem driver and sample, modelled in Dafny

This project models two parts of a Zephyr cellular modem stack:

- The generic cellular modem driver's power and connection state machine. Its states are IDLE, POWER_ON, RUN_INIT_SCRIPT, CONNECT_CMUX, OPEN_DLCI1, OPEN_DLCI2, RUN_DIAL_SCRIPT, REGISTER, CARRIER_ON, CARRIER_OFF and POWER_OFF.
  - Eight events drive it. They come from chat scripts, CMUX, the DLCI pipes, the timer and power management.
  - The events pass through an 8-byte event queue.
  - A dispatcher hands them to the handler of the current state, oldest first, and adds a SUSPEND when a suspension is requested.
  - Switching state runs the leave hook of the old state and then the enter hook of the new one. A failing leave hook cancels the switch.
  - Chat match callbacks fill the cached IMEI, the model name, and the `+CREG` and `+CGATT` status. The `+CREG` status follows section 7.2 of 3GPP TS 27.007 and `+CGATT` follows section 10.1.9.
- The sample application's test traffic: a linear congruential generator that fills a 1024-byte packet, and the check that a UDP echo server returned exactly that packet.

Files:

- `clib.dfy` (`CLib`): the C integer types and conversions, and `strlen`, `atoi` and `strncpy`.
- `cellular_spec.dfy` (`CellularSpec`): the state machine as pure functions.
  - The outside world is a value `Env`. It holds the pin levels, the last timer request, the suspended-semaphore count and the log of library calls.
  - `Leave`, `Enter` and `Transition` (enter_state) describe one state change. One function per state (`IdleStep` to `PowerOffStep`) describes that state's event handler, and `React` (event_handler) dispatches to them. `Run` describes a sequence of events.
  - The module also holds the transition rules and whole-sequence lemmas proved about these functions.
- `modem_cellular.dfy` (`ModemCellular`): the device data as a class `Modem`, with every hook, handler, callback and the dispatcher as a method.
  - The `ensures` of the hooks, the handlers and the dispatcher tie the new state to the functions of `CellularSpec`.
  - The pipe, CMUX, chat-result and timer callbacks are tied to the queue function `ModemCellular.Enqueued`.
  - The chat match callbacks are tied to `CLib.AtoiUint8` and `CLib.Strncpy`, and to `CellularSpec.ImeiAfter` for the IMEI.
- `cellular_sample.dfy` (`CellularSample`): the generator, the echo check as pure functions, and the class `Sample` with the two 1024-byte buffers.

Library calls are not modelled by their internals. Every call into the chat, CMUX, pipe, PPP and network-interface code is handled the same way:

- it is appended to `Env.calls`;
- its return code comes from a parameter `lib: (seq<Call>, Call) -> int`, where a negative code is a failure. The library answers each call knowing every call made before it, so the same call may fail at one time and succeed at a later one.

The other kernel calls are modelled by their effect:

- `gpio_pin_set_dt`, `k_work_schedule`, `k_work_cancel_delayable` and `k_sem_give` are appended to `Env.calls`, and they set the pin level, the timer request or the semaphore count in `Env`. The driver ignores their return codes, so the model gives them none.
- `gpio_pin_get_dt` (`Modem.GpioPinGetDt`) reads the pin level held in `Env` and is not logged.
- `k_work_submit` of the dispatch work sets the field `Modem.dispatchPending` and is not logged.
- `k_sem_take` in `Modem.PmAction` takes one from `Env.suspendedSem` when it is positive and returns 0, and otherwise returns `-EAGAIN`. It is not logged.
- `ring_buf_put` and `ring_buf_get` are updates of the field `Modem.events`.
- `modem_ppp_get_iface` is not logged. It only looks up the interface that the logged `net_if_*` calls take as their argument.

## Model

| member | source | states |
|---|---|---|
| CLib.ToUint8 | drivers/modem/modem_cellular.c:238 | storing an int in a `uint8_t` keeps it modulo 256 |
| CLib.ToUint32 | samples/net/cellular_modem/src/main.c:32 | `uint32_t` arithmetic keeps results modulo 2^32 |
| CLib.ToSizeT | samples/net/cellular_modem/src/main.c:116 | an `int` compared with a `size_t` keeps its value when non-negative and becomes at least 2^31 when negative |
| CLib.Strlen | drivers/modem/modem_cellular.c:233 | the length is the index of the first NUL, or the whole buffer when there is none |
| CLib.StrlenAt | drivers/modem/modem_cellular.c:233 | a NUL at k with none before it makes k the length |
| CLib.BitAnd | samples/net/cellular_modem/src/main.c:34 | `&` of two unsigned values is no larger than either operand |
| CLib.BitAndLowOnes | samples/net/cellular_modem/src/main.c:34 | masking with m low one bits, such as 0xFF, keeps the value modulo m + 1 |
| CLib.Atoi | drivers/modem/modem_cellular.c:263-264 | a string that does not start with a digit converts to 0, and a string of digits converts to the number it denotes |
| CLib.AtoiUint8 | drivers/modem/modem_cellular.c:276 | a converted value below 256 is stored in the `uint8_t` field unchanged |
| CLib.AtoiOfDecimal | drivers/modem/modem_cellular.c:263-264 | `atoi` reads back every number written in decimal, alone or followed by the NUL terminator and any bytes |
| CLib.AtoiUint8OfDecimal | drivers/modem/modem_cellular.c:276 | a status value below 256 survives being sent in decimal, alone or NUL-terminated with any bytes after it, and stored in a `uint8_t` |
| CLib.Strncpy | drivers/modem/modem_cellular.c:251 | `strncpy` keeps the length of the destination and every byte from index n on |
| CLib.StrncpyReadsBack | drivers/modem/modem_cellular.c:251 | when byte n of the destination is NUL, the destination afterwards reads as the source cut to n characters |
| CellularSpec.StateStr | drivers/modem/modem_cellular.c:111-139 | every state's name is non-empty |
| CellularSpec.StateStrIdentifies | drivers/modem/modem_cellular.c:111-139 | every state has its own name |
| CellularSpec.EventStr | drivers/modem/modem_cellular.c:141-163 | every event's name is non-empty |
| CellularSpec.EventStrIdentifies | drivers/modem/modem_cellular.c:141-163 | every event has its own name |
| CellularSpec.GpioIsEnabled | drivers/modem/modem_cellular.c:165-168 | a GPIO is usable exactly when its port is not NULL |
| CellularSpec.GpioSpecGetOr | drivers/modem/modem_cellular.c:1139-1140 | an absent devicetree property gives the zero-initialised specification `{}`, and a present one keeps its pin and flags |
| CellularSpec.DevicetreeGpioEnabled | drivers/modem/modem_cellular.c:1139-1140 | a GPIO taken from the devicetree is enabled exactly when its property is present |
| CellularSpec.DeviceConfig | drivers/modem/modem_cellular.c:1139-1140 | an instance's power and reset GPIOs are enabled exactly when `mdm-power-gpios` and `mdm-reset-gpios` are present |
| CellularSpec.PinReadsBack | drivers/modem/modem_cellular.c:445-454 | a pin reads back the level last written to it, and writing one pin leaves the other as it was |
| CellularSpec.Leave | drivers/modem/modem_cellular.c:858-901 | no leave hook touches a pin, only POWER_OFF's changes the semaphore count, and the call log only grows |
| CellularSpec.Enter | drivers/modem/modem_cellular.c:805-856 | no enter hook changes the semaphore count, and the call log only grows |
| CellularSpec.Transition | drivers/modem/modem_cellular.c:903-922 | the new state is the target when the leave hook's code is non-negative and the old state otherwise; the log keeps the leave hook's calls ahead of the enter hook's |
| CellularSpec.LeaveFailureKeepsState | drivers/modem/modem_cellular.c:908-914 | a negative leave code keeps the state and runs no enter hook |
| CellularSpec.LeaveCode | drivers/modem/modem_cellular.c:858-901 | only the leave hooks of IDLE and RUN_DIAL_SCRIPT can return a negative code |
| CellularSpec.LeaveCodeOfLastCall | drivers/modem/modem_cellular.c:858-901 | a leave hook succeeds when no library call fails, and a hook that can fail returns the library's answer to the last call it makes |
| CellularSpec.EnterCode | drivers/modem/modem_cellular.c:805-856 | only the enter hooks that attach or open something (RUN_INIT_SCRIPT, CONNECT_CMUX, OPEN_DLCI1, OPEN_DLCI2, RUN_DIAL_SCRIPT, REGISTER) can return a negative code |
| CellularSpec.EnterCodeOfLastCall | drivers/modem/modem_cellular.c:805-856 | an enter hook succeeds when no library call fails; any code other than 0 and the -EAGAIN of a failed attach is the library's answer to the last call it makes |
| CellularSpec.LeaveSuccessEntersTarget | drivers/modem/modem_cellular.c:916-921 | a non-negative leave code switches to the target and runs its enter hook, whatever that hook returns, also for a switch to the current state |
| CellularSpec.IsRegistered | drivers/modem/modem_cellular.c:645-648 | registered exactly when +CREG reports roaming (5) and +CGATT reports attached (1) |
| CellularSpec.HomeRegistrationNotCounted | drivers/modem/modem_cellular.c:645-648 | registration on the home network (1) does not count as registered |
| CellularSpec.IdleStep | drivers/modem/modem_cellular.c:394-414 | the IDLE handler moves only to POWER_ON or RUN_INIT_SCRIPT and only appends to the call log |
| CellularSpec.PowerOnStep | drivers/modem/modem_cellular.c:437-465 | the POWER_ON handler moves only to RUN_INIT_SCRIPT and only appends to the call log |
| CellularSpec.RunInitScriptStep | drivers/modem/modem_cellular.c:476-504 | the RUN_INIT_SCRIPT handler moves only to CONNECT_CMUX or POWER_ON and only appends to the call log |
| CellularSpec.ConnectCmuxStep | drivers/modem/modem_cellular.c:524-539 | the CONNECT_CMUX handler moves only to OPEN_DLCI1 and only appends to the call log |
| CellularSpec.OpenDlci1Step | drivers/modem/modem_cellular.c:548-559 | the OPEN_DLCI1 handler moves only to OPEN_DLCI2 and only appends to the call log |
| CellularSpec.OpenDlci2Step | drivers/modem/modem_cellular.c:575-586 | the OPEN_DLCI2 handler moves only to RUN_DIAL_SCRIPT and only appends to the call log |
| CellularSpec.RunDialScriptStep | drivers/modem/modem_cellular.c:606-625 | the RUN_DIAL_SCRIPT handler moves only to REGISTER and only appends to the call log |
| CellularSpec.RegisterStep | drivers/modem/modem_cellular.c:650-681 | the REGISTER handler moves only to POWER_OFF, IDLE or CARRIER_ON and only appends to the call log |
| CellularSpec.CarrierOnStep | drivers/modem/modem_cellular.c:699-722 | the CARRIER_ON handler moves only to CARRIER_OFF or RUN_DIAL_SCRIPT and only appends to the call log |
| CellularSpec.CarrierOffStep | drivers/modem/modem_cellular.c:740-763 | the CARRIER_OFF handler moves only to POWER_OFF or IDLE and only appends to the call log |
| CellularSpec.PowerOffStep | drivers/modem/modem_cellular.c:777-797 | the POWER_OFF handler moves only to IDLE and only appends to the call log |
| CellularSpec.React | drivers/modem/modem_cellular.c:924-982 | the handler of the current state moves only along the state graph `Successors` and only appends to the call log |
| CellularSpec.ReactInvariants | drivers/modem/modem_cellular.c:924-982 | every handler keeps the GPIO needs of the state satisfied, acts on SUSPEND only in REGISTER and CARRIER_ON, reaches CARRIER_ON only when registered, and changes the semaphore only when leaving POWER_OFF |
| CellularSpec.Run | drivers/modem/modem_cellular.c:362-383 | handling a sequence of events one after the other only appends to the call log |
| CellularSpec.RunKeepsGpioConsistent | drivers/modem/modem_cellular.c:362-383 | no sequence of events reaches POWER_ON without a power or reset GPIO, or POWER_OFF without a power GPIO |
| CellularSpec.RunSnoc | drivers/modem/modem_cellular.c:376-382 | handling one more event is one more handler step on the state the earlier ones left |
| CellularSpec.RunAppend | drivers/modem/modem_cellular.c:376-382 | handling two runs of events in turn is handling their concatenation |
| CellularSpec.RunCons | drivers/modem/modem_cellular.c:376-382 | handling a first event and then the rest is one handler step followed by the rest |
| CellularSpec.IdleRetriesResume | drivers/modem/modem_cellular.c:400-413 | a RESUME whose pipe open fails keeps IDLE, and a second RESUME whose open succeeds moves on |
| CellularSpec.IdleRules | drivers/modem/modem_cellular.c:400-413 | in IDLE, RESUME leads to POWER_ON with a power or reset GPIO and to RUN_INIT_SCRIPT without, once the UART pipe opens; every other event changes nothing |
| CellularSpec.RunInitScriptRules | drivers/modem/modem_cellular.c:482-502 | SCRIPT_SUCCESS leads to CONNECT_CMUX; SCRIPT_FAILED leads to POWER_ON with a power GPIO and otherwise leaves and re-enters RUN_INIT_SCRIPT; other events change nothing |
| CellularSpec.RegisterScriptSuccess | drivers/modem/modem_cellular.c:666-671 | REGISTER moves to CARRIER_ON on SCRIPT_SUCCESS exactly when registered |
| CellularSpec.CarrierOnScriptSuccess | drivers/modem/modem_cellular.c:707-712 | CARRIER_ON falls back to RUN_DIAL_SCRIPT on SCRIPT_SUCCESS exactly when not registered |
| CellularSpec.SuspendRules | drivers/modem/modem_cellular.c:656-705 | SUSPEND moves REGISTER to POWER_OFF with a power GPIO and to IDLE without, moves CARRIER_ON to CARRIER_OFF, and leaves every other state and the outside world unchanged |
| CellularSpec.PowerOnTimeoutRules | drivers/modem/modem_cellular.c:444-459 | on TIMEOUT in POWER_ON, a high configured power pin, or else a high configured reset pin, is driven low with the 10 s start-up timer and the state is kept; otherwise the machine moves on to RUN_INIT_SCRIPT |
| CellularSpec.PowerOffTimeoutRules | drivers/modem/modem_cellular.c:784-803 | on TIMEOUT in POWER_OFF, a high power pin is driven low with the 10 s shutdown timer and the state is kept; with the pin low, the machine moves to IDLE and the suspended semaphore is given |
| CellularSpec.PowerOnDrains | drivers/modem/modem_cellular.c:437-465 | in POWER_ON, one TIMEOUT per raised configured pin and one more reach RUN_INIT_SCRIPT |
| CellularSpec.PowerOnPhase | drivers/modem/modem_cellular.c:394-465 | from the pin levels init leaves and with calls that succeed, RESUME and the POWER_ON timeouts take IDLE to RUN_INIT_SCRIPT in every GPIO configuration |
| CellularSpec.ConnectFrom | drivers/modem/modem_cellular.c:476-681 | with calls that succeed, a registered modem goes from RUN_INIT_SCRIPT to CARRIER_ON, from any outside state, on these events: init script success, the TIMEOUT that starts the CMUX connection, CMUX_CONNECTED, both DLCIs opened, the TIMEOUT that runs the dial script, then dial and status script success |
| CellularSpec.StartUp | drivers/modem/modem_cellular.c:394-681 | in every GPIO configuration, from the pin levels init leaves (power pin low, reset pin high exactly when configured) and with calls that succeed, the start-up events take a registered modem from IDLE to CARRIER_ON. These include the TIMEOUTs in CONNECT_CMUX and RUN_DIAL_SCRIPT that start the CMUX connection and the dial script. When a power or reset GPIO is configured, POWER_ON takes one TIMEOUT per configured pin and one more |
| CellularSpec.PowerDown | drivers/modem/modem_cellular.c:699-803 | with a power GPIO, whatever the pin levels, SUSPEND and three timeouts take CARRIER_ON to IDLE with the power pin low and the semaphore given |
| CellularSpec.PowerDownWithoutPowerGpio | drivers/modem/modem_cellular.c:740-763 | without a power GPIO, SUSPEND and one timeout take CARRIER_ON to IDLE without giving the semaphore |
| CellularSpec.ImeiDigits | drivers/modem/modem_cellular.c:237-239 | 15 values, and each digit character becomes its digit value |
| CellularSpec.ImeiAfter | drivers/modem/modem_cellular.c:229-239 | the IMEI is kept unless there are two arguments and the second is 15 characters long; then it holds 15 values, and each digit character is stored as the value it denotes |
| CellularSpec.ImeiRoundTrip | drivers/modem/modem_cellular.c:224-240 | an IMEI sent as 15 digit characters is stored as exactly those digits, whatever was stored before and whatever the first argument is, with or without a NUL terminator and bytes after it |
| ModemCellular.Enqueued | drivers/modem/modem_cellular.c:389 | the queued events stay in order, the new event goes to the back exactly when there is room, and the queue never exceeds eight events |
| ModemCellular.EnqueuedAllKeepsOldest | drivers/modem/modem_cellular.c:385-392 | the event queue keeps the queued events followed by the new ones, in order, up to eight, and drops the rest |
| ModemCellular.Modem.constructor | drivers/modem/modem_cellular.c:1038-1047 | zeroed status in IDLE, empty queue, no suspension requested, semaphore count 0, power pin low and reset pin high when configured |
| ModemCellular.Modem.Registered | drivers/modem/modem_cellular.c:645-648 | registered exactly when the cached status says roaming and attached |
| ModemCellular.Modem.LibraryCall | drivers/modem/modem_cellular.c:418 | a library call is logged and returns the code the library gives it after the calls before it |
| ModemCellular.Modem.GpioPinGetDt | drivers/modem/modem_cellular.c:446 | reading a configured pin gives its logical level |
| ModemCellular.Modem.GiveSuspendedSem | drivers/modem/modem_cellular.c:801 | the semaphore count becomes its limit of one |
| ModemCellular.Modem.StartTimer | drivers/modem/modem_cellular.c:344-347 | records the requested timeout |
| ModemCellular.Modem.StopTimer | drivers/modem/modem_cellular.c:349-352 | records the cancellation |
| ModemCellular.Modem.GpioPinSetDt | drivers/modem/modem_cellular.c:427 | only a configured GPIO is driven, and it takes the level written |
| ModemCellular.Modem.OnIdleStateLeave | drivers/modem/modem_cellular.c:416-419 | opens the UART pipe and returns its code |
| ModemCellular.Modem.OnPowerOnStateEnter | drivers/modem/modem_cellular.c:421-435 | raises the power pin for 1.5 s, or else the reset pin for 100 ms |
| ModemCellular.Modem.OnRunInitScriptStateEnter | drivers/modem/modem_cellular.c:467-474 | -EAGAIN when the chat does not attach to the UART, else the code of starting the init script |
| ModemCellular.Modem.OnRunInitScriptStateLeave | drivers/modem/modem_cellular.c:506-511 | releases the chat and succeeds |
| ModemCellular.Modem.OnConnectCmuxStateEnter | drivers/modem/modem_cellular.c:513-522 | -EAGAIN when CMUX does not attach, else the 500 ms timer is started |
| ModemCellular.Modem.OnOpenDlci1StateEnter | drivers/modem/modem_cellular.c:541-546 | attaches DLCI 1 and returns the code of opening it |
| ModemCellular.Modem.OnOpenDlci1StateLeave | drivers/modem/modem_cellular.c:561-566 | releases DLCI 1 and succeeds |
| ModemCellular.Modem.OnOpenDlci2StateEnter | drivers/modem/modem_cellular.c:568-573 | attaches DLCI 2 and returns the code of opening it |
| ModemCellular.Modem.OnOpenDlci2StateLeave | drivers/modem/modem_cellular.c:588-593 | releases DLCI 2 and succeeds |
| ModemCellular.Modem.OnRunDialScriptStateEnter | drivers/modem/modem_cellular.c:595-604 | -EAGAIN when the chat does not attach to DLCI 2, else the 500 ms timer is started |
| ModemCellular.Modem.OnRunDialScriptStateLeave | drivers/modem/modem_cellular.c:627-632 | releases the chat and returns the code of attaching PPP to DLCI 2 |
| ModemCellular.Modem.OnRegisterStateEnter | drivers/modem/modem_cellular.c:634-643 | -EAGAIN when the chat does not attach to DLCI 1, else the 2 s timer and the code of starting the status script |
| ModemCellular.Modem.OnRegisterStateLeave | drivers/modem/modem_cellular.c:683-688 | cancels the timer, releases the chat and succeeds |
| ModemCellular.Modem.OnCarrierOnStateEnter | drivers/modem/modem_cellular.c:690-697 | carrier on, status script on DLCI 1, 4 s timer, success |
| ModemCellular.Modem.OnCarrierOnStateLeave | drivers/modem/modem_cellular.c:724-731 | cancels the timer, aborts and releases the chat, releases PPP, succeeds |
| ModemCellular.Modem.OnCarrierOffStateEnter | drivers/modem/modem_cellular.c:733-738 | carrier off and the 1 s timer |
| ModemCellular.Modem.OnPowerOffStateEnter | drivers/modem/modem_cellular.c:765-775 | releases CMUX, closes the UART pipe, raises the power pin for 1.5 s |
| ModemCellular.Modem.OnPowerOffStateLeave | drivers/modem/modem_cellular.c:799-803 | gives the suspended semaphore, up to its limit of one |
| ModemCellular.Modem.OnStateEnter | drivers/modem/modem_cellular.c:805-856 | the enter hook of the current state; IDLE has none and succeeds |
| ModemCellular.Modem.OnStateLeave | drivers/modem/modem_cellular.c:858-901 | the leave hook of the current state; POWER_ON, CONNECT_CMUX and CARRIER_OFF have none and succeed |
| ModemCellular.Modem.EnterState | drivers/modem/modem_cellular.c:903-922 | the new state and outside world are those of `Transition`, and the object stays valid |
| ModemCellular.Modem.IdleEventHandler | drivers/modem/modem_cellular.c:394-414 | agrees with `IdleStep` |
| ModemCellular.Modem.PowerOnEventHandler | drivers/modem/modem_cellular.c:437-465 | agrees with `PowerOnStep` |
| ModemCellular.Modem.RunInitScriptEventHandler | drivers/modem/modem_cellular.c:476-504 | agrees with `RunInitScriptStep`: the link address is set from the IMEI before CONNECT_CMUX |
| ModemCellular.Modem.ConnectCmuxEventHandler | drivers/modem/modem_cellular.c:524-539 | agrees with `ConnectCmuxStep` |
| ModemCellular.Modem.OpenDlci1EventHandler | drivers/modem/modem_cellular.c:548-559 | agrees with `OpenDlci1Step` |
| ModemCellular.Modem.OpenDlci2EventHandler | drivers/modem/modem_cellular.c:575-586 | agrees with `OpenDlci2Step` |
| ModemCellular.Modem.RunDialScriptEventHandler | drivers/modem/modem_cellular.c:606-625 | agrees with `RunDialScriptStep` |
| ModemCellular.Modem.RegisterEventHandler | drivers/modem/modem_cellular.c:650-681 | agrees with `RegisterStep`, with the registration read from the cached status |
| ModemCellular.Modem.CarrierOnEventHandler | drivers/modem/modem_cellular.c:699-722 | agrees with `CarrierOnStep` |
| ModemCellular.Modem.CarrierOffEventHandler | drivers/modem/modem_cellular.c:740-763 | agrees with `CarrierOffStep` |
| ModemCellular.Modem.PowerOffEventHandler | drivers/modem/modem_cellular.c:777-797 | agrees with `PowerOffStep` |
| ModemCellular.Modem.EventHandler | drivers/modem/modem_cellular.c:924-982 | one step of `React` from the current state, keeping the object valid |
| ModemCellular.Modem.DelegateEvent | drivers/modem/modem_cellular.c:385-392 | the event joins the back of the queue when there is room, and the dispatch work is submitted |
| ModemCellular.Modem.EventDispatchHandler | drivers/modem/modem_cellular.c:362-383 | empties the queue and leaves the state that `Run` gives for the queued events in order, followed by SUSPEND exactly when a suspension is requested |
| ModemCellular.Modem.Dlci1PipeHandler | drivers/modem/modem_cellular.c:179-193 | "opened" queues DLCI1_OPENED; other pipe events do nothing |
| ModemCellular.Modem.Dlci2PipeHandler | drivers/modem/modem_cellular.c:195-209 | "opened" queues DLCI2_OPENED; other pipe events do nothing |
| ModemCellular.Modem.ChatCallbackHandler | drivers/modem/modem_cellular.c:211-222 | success queues SCRIPT_SUCCESS; abort and timeout queue SCRIPT_FAILED |
| ModemCellular.Modem.CmuxHandler | drivers/modem/modem_cellular.c:984-997 | "connected" queues CMUX_CONNECTED; other CMUX events do nothing |
| ModemCellular.Modem.TimeoutHandler | drivers/modem/modem_cellular.c:354-360 | queues TIMEOUT |
| ModemCellular.Modem.ChatOnImei | drivers/modem/modem_cellular.c:224-240 | the IMEI becomes `ImeiAfter` of the old IMEI and the arguments |
| ModemCellular.Modem.ChatOnCgmm | drivers/modem/modem_cellular.c:242-252 | with two arguments, hwinfo receives `strncpy` of the model name cut to 63 bytes and still reads as that name; otherwise it is kept |
| ModemCellular.Modem.ChatOnCreg | drivers/modem/modem_cellular.c:254-265 | with three arguments, the two fields are stored through `atoi`; otherwise nothing changes |
| ModemCellular.Modem.ChatOnCgatt | drivers/modem/modem_cellular.c:267-277 | with two arguments, the attach state is stored through `atoi`; otherwise nothing changes |
| ModemCellular.Modem.PmAction | drivers/modem/modem_cellular.c:1000-1023 | RESUME clears the request, queues RESUME and succeeds; SUSPEND sets the request and takes the semaphore or fails with -EAGAIN; other actions give -ENOTSUP and change nothing |
| ModemCellular.StrncpyInto | drivers/modem/modem_cellular.c:251 | the buffer afterwards is `Strncpy` of its old contents |
| CellularSample.PrngNext | samples/net/cellular_modem/src/main.c:32 | the 32-bit computation equals (1103515245 s + 12345) mod 2^31 and is below 2^31 |
| CellularSample.WrapThenReduce | samples/net/cellular_modem/src/main.c:32 | wrapping modulo 2^32 before reducing modulo 2^31 changes nothing |
| CellularSample.OutputByte | samples/net/cellular_modem/src/main.c:34 | the byte returned, the state masked with 0xFF and cast to `uint8_t`, is the state modulo 256 |
| CellularSample.PrngBytesAt | samples/net/cellular_modem/src/main.c:39-41 | byte i of the generated sequence is the output of call i+1 |
| CellularSample.PrngStateBound | samples/net/cellular_modem/src/main.c:30-32 | after any call the state is below 2^31 |
| CellularSample.FirstOutput | samples/net/cellular_modem/src/main.c:30-34 | from the seed 1234 the first state is 233191843 and the first byte 163 |
| CellularSample.EchoSteps | samples/net/cellular_modem/src/main.c:86-147 | the result is 0 or -1 and the receive buffer keeps its size |
| CellularSample.EchoAsWritten | samples/net/cellular_modem/src/main.c:113-119 | the echo check with the send test as written; the result is 0 or -1 |
| CellularSample.Echo | samples/net/cellular_modem/src/main.c:86-147 | the echo check with the send test corrected; the result is 0 or -1 |
| CellularSample.EchoAccepts | samples/net/cellular_modem/src/main.c:86-147 | the result is 0 exactly when: the socket opens, the family is IPv4 or IPv6, the whole packet is sent, 1024 bytes come back equal to it, and closing succeeds; the socket is closed exactly when all checks before closing pass |
| CellularSample.UnsupportedFamilyFails | samples/net/cellular_modem/src/main.c:102-109 | another address family fails before sending and keeps the address |
| CellularSample.ShortSendFails | samples/net/cellular_modem/src/main.c:113-119 | a partial send fails without receiving, as written and as corrected |
| CellularSample.SendChecksAgreeOnNonNegative | samples/net/cellular_modem/src/main.c:113-128 | both send tests agree on non-negative results and differ on negative ones; a negative receive result never equals 1024 after conversion |
| CellularSample.FailedSendAcceptedAsWritten | samples/net/cellular_modem/src/main.c:113-119 | a send returning -1 followed by an echo of the packet is accepted as written and rejected as corrected |
| CellularSample.Sample.constructor | samples/net/cellular_modem/src/main.c:21-30 | zeroed buffers, generator at the seed 1234 |
| CellularSample.Sample.PrngRandom | samples/net/cellular_modem/src/main.c:28-35 | the state advances by `PrngNext` and the low byte of the new state is returned |
| CellularSample.Sample.InitSampleTestPacket | samples/net/cellular_modem/src/main.c:37-42 | the packet becomes the next 1024 generator bytes, written at indices 0 to 1023 once each in increasing order, and the generator advances 1024 steps |
| CellularSample.Sample.SampleEchoPacket | samples/net/cellular_modem/src/main.c:86-147 | the return value, the updated address, the receive buffer and the socket calls are those of `Echo` |
| CellularSample.Recv | samples/net/cellular_modem/src/main.c:123 | returns -1 on failure, else the bytes stored, at most the buffer's size, over the front of the buffer |
| CellularSample.Memcmp | samples/net/cellular_modem/src/main.c:130 | zero exactly when the buffers agree, else the difference at the first mismatch |

## Left out

- Library internals. The chat, CMUX, pipe, PPP, network-interface and GPIO code is not part of this model. Each chat, CMUX, pipe, PPP and network-interface call is a log entry, and its return code comes from the `lib` parameter, which sees the calls made before it but no other outside state. The GPIO, work-queue and semaphore calls are modelled by their effect, as listed above. The chat scripts are named but their command lists (lines 279-330) are not modelled.
- The timer keeps only the last request, scheduled or cancelled. Its expiry is the environment calling `TimeoutHandler`, and rescheduling semantics are not modelled.
- `gpio_pin_get_dt` returns the level last written; nothing outside drives the pins. Its negative error returns are not modelled either. The driver's tests at lines 446, 453 and 785 would take such a code for a high pin.
- Event queue overflow. The ring buffer's behaviour when full is library-defined. The model drops the new event and keeps the queued ones.
- Events are stored as whole values, not as the first byte of the enum.
- Locking and signalling. `k_mutex`, `atomic_t` and `k_sem` are plain fields: a flag for the suspension request and a count limited to one for the semaphore. Concurrency between callbacks and the dispatcher is not modelled; each method runs alone.
- ModemCellular.Modem.PmAction: the 30 s wait of `k_sem_take` is not modelled. The take succeeds exactly when the count is positive at the call.
- `modem_cellular_init` (lines 1026-1123) is modelled only in `Modem.constructor`: the zeroed data, the semaphore, and the pin configuration. Also left out are the backend, CMUX, DLCI and chat set-up, the RESUME it queues without power management, and the instantiation macros (lines 1125-1166). These are device wiring.
- Logging (`modem_cellular_log_state_changed`, `modem_cellular_log_event`, `printk`) has no effect on the model. `StateStr` and `EventStr` model the names it uses.
- CLib.Atoi: leading white space, signs and overflow are not modelled; only a leading run of decimal digits is read. Storing the result in a `uint8_t` reduces it modulo 256.
- The sample's `main()`, its DNS request and callback, network bring-up and power-management calls are left out. They are I/O orchestration. The Python echo server (`te_udp_echo.py`, `te.py`) is left out too: it is threads, socket polling and signal handlers.
- Sockets are the answers of a `SocketLayer` value.
  - `zsock_recv` is assumed to store one datagram truncated to the buffer and to return the number of bytes stored.
  - `htons` is not modelled: the address keeps the port in host order.
- CellularSample.Sample.SampleEchoPacket: models the send check as corrected (see Findings), not as written; `EchoAsWritten` keeps the check as written.

Observations about the driver that are modelled as written:

- `is_registered` accepts only status 5, "registered, roaming". Registration on the home network (1) never leads to CARRIER_ON.
- The first `+CREG` field is stored as the access technology. Section 7.2 of 3GPP TS 27.007 puts `<n>` first in the answer to `AT+CREG?`.
- Without a power GPIO, a suspension never passes POWER_OFF, so the suspended semaphore is never given.
- On the failure paths after the socket is opened, `sample_echo_packet` returns without closing it.
- `sample_echo_packet` always opens an `AF_INET` socket (line 93). An IPv6 address passes the family check at lines 102-105 and is then used on that IPv4 socket. The model records the family check but does not model socket families.

## Findings

| source | as written | input that shows it | evidently intended | confidence | as-written member | corrected member |
|---|---|---|---|---|---|---|
| samples/net/cellular_modem/src/main.c:116 | `ret < sizeof(sample_test_packet)` compares an `int` with a `size_t`, so a negative send result becomes a large unsigned value and passes the check | `zsock_sendto` returns -1 and an echo of the packet still arrives: the sample goes on to receive and reports success | a failed send returns -1 before receiving | not executed | CellularSample.FailedSendAcceptedAsWritten | CellularSample.EchoAccepts |
