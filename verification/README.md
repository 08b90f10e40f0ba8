# FT6x36 touch driver — a Dafny model

This project models the core of the FT6x36 capacitive touch-controller driver of the
`lvgl_esp32_drivers` component: the polling function `ft6x36_read` that the LVGL input
layer calls on every tick, the driver state set up by `ft6x06_init`, and the
initialisation guard of `ft6x36_get_gesture_id`.

Each poll is a pure step

    Read(cfg, driver, data, bus) -> Poll(driver', data', more, request, published)

where `bus` is the result of the five-byte I2C read (an error, or the point-count byte and
the X/Y register pairs), `driver` holds the init flag, the 8-bit device address, the stored
sample `{lastX, lastY, state}` and the single-element coordinate queue, and `data` is the
caller's LVGL input record. The step either

- releases: on a bus error or a point count other than 1 the state becomes Released, the
  coordinates stay as they were, and the queue is written only on a Pressed-to-Released
  edge; or
- presses: with exactly one point the 12-bit X and Y are decoded from their high/low
  register pairs, swapped, then X-mirrored, then Y-mirrored as configured, stored as
  Pressed, and written to the queue on every such poll.

The build-time switches (`CONFIG_LV_FT6X36_SWAPXY`, `..._INVERT_X`, `..._INVERT_Y`,
`..._COORDINATES_QUEUE`), the resolution `LV_HOR_RES`/`LV_VER_RES`, the touch port, the
register offsets and the masks `FT6X36_MSB_MASK`/`FT6X36_LSB_MASK` are fields of a `Config`
value. `ft6x36.h`, which defines the masks and register offsets, is not part of this
model, so they are parameters. The FreeRTOS queue of capacity one is a `Channel`: either
absent or a slot holding at most one sample, overwritten by every send.

Fixed-width arithmetic is explicit: coordinates are stored into `int16_t` fields, so the
decoded value and `LV_HOR_RES - x` are wrapped modulo 2^16 (`Machine.ToInt16`, the
conversion the ESP32 toolchain performs), and the 16-bit address argument of
`ft6x06_init` is truncated into the 8-bit `current_dev_addr` (`Machine.ToUInt8`).

Modules: `Machine` (integer widths), `Wrappers` (`Option`), `Registers` (the five-byte
register block and coordinate decoding), `Orientation` (swap and mirroring), `Ft6x36`
(driver state, init, the polling step, gesture ID) and `Polling` (runs of successive
polls and what they add up to).

Three behaviours of the driver worth stating:

- An uninitialised `ft6x36_read` returns false and leaves the caller's record and the
  stored sample as they were.
- `ft6x06_init` seeds the queue with the stored sample as it is at that moment (the
  never-touched sample until the first single-touch poll); it does not reset the sample.
- A failed gesture-ID read returns the buffer's prior contents rather than 0, although
  the function's doc comment (ft6x36.c line 48) promises 0x00 on failure (see Findings).

## Model

| member | source | states |
|---|---|---|
| Machine.ToInt16 | components/lvgl_esp32_drivers/lvgl_touch/ft6x36.c:136-148 | storing into an `int16_t` coordinate gives a value of the int16 range congruent to the int value modulo 2^16, and leaves in-range values unchanged |
| Machine.ToInt16Unique | components/lvgl_esp32_drivers/lvgl_touch/ft6x36.c:136-148 | that congruent in-range value is unique, so the stored coordinate is fully determined |
| Machine.ToUInt8 | components/lvgl_esp32_drivers/lvgl_touch/ft6x36.c:67-70 | the `uint16_t` address argument is kept modulo 2^8 in the `uint8_t` device address |
| Machine.ToUInt8Unique | components/lvgl_esp32_drivers/lvgl_touch/ft6x36.c:67-70 | that congruent in-range value is unique, so the stored device address is fully determined by the argument |
| Registers.WordIsSum | components/lvgl_esp32_drivers/lvgl_touch/ft6x36.c:136-137 | the shifted-and-or'ed word of the masked registers equals masked high times 256 plus masked low |
| Registers.DecodeCoord | components/lvgl_esp32_drivers/lvgl_touch/ft6x36.c:136-137 | a coordinate is the masked high register times 256 plus the masked low register, wrapped to int16; with a high mask that clears bit 7 it is exactly that sum |
| Registers.EncodeCoord | components/lvgl_esp32_drivers/lvgl_touch/ft6x36.c:113-137 | for a coordinate below 0x1000 it gives the high/low register pair whose high byte shifted above the low byte is that coordinate and whose high byte has its upper nibble clear |
| Registers.DecodeEncode | components/lvgl_esp32_drivers/lvgl_touch/ft6x36.c:136-137 | with 12-bit masks decoding recovers every coordinate 0..0xFFF from its register pair |
| Registers.DecodeTwelveBit | components/lvgl_esp32_drivers/lvgl_touch/ft6x36.c:136-137 | with 12-bit masks every register pair decodes into 0..0xFFF, with no int16 wrap-around |
| Registers.EncodeDecode | components/lvgl_esp32_drivers/lvgl_touch/ft6x36.c:136-137 | with 12-bit masks only the masked bits count: the decoded word re-encodes to the pair with the high register's upper nibble cleared |
| Registers.DecodeExample | components/lvgl_esp32_drivers/lvgl_touch/ft6x36.c:136-137 | high register 0x03 and low register 0xFF decode to 0x3FF |
| Orientation.Mirror | components/lvgl_esp32_drivers/lvgl_touch/ft6x36.c:144-149 | mirroring a coordinate within 0..res gives `res - v`, again within 0..res |
| Orientation.MirrorInvolution | components/lvgl_esp32_drivers/lvgl_touch/ft6x36.c:144-149 | mirroring twice about the same resolution gives the coordinate back, also across int16 wrap-around |
| Orientation.Orient | components/lvgl_esp32_drivers/lvgl_touch/ft6x36.c:139-149 | the reported X is the raw coordinate that the optional swap puts on the X axis, mirrored about the horizontal resolution if X inversion is on; Y likewise with the vertical resolution: swap comes before both inversions |
| Orientation.Unorient | components/lvgl_esp32_drivers/lvgl_touch/ft6x36.c:139-149 | every reported point is the orientation of the raw point this inverse returns |
| Orientation.UnorientOrient | components/lvgl_esp32_drivers/lvgl_touch/ft6x36.c:139-149 | the orientation is injective: undoing it recovers the raw point, so the transforms lose no touch position |
| Orientation.SwapThenInvertExample | components/lvgl_esp32_drivers/lvgl_touch/ft6x36.c:139-146 | with swap and X inversion on and resolution 320 x 240, raw (10, 20) is reported as (300, 10) |
| Ft6x36.Overwrite | components/lvgl_esp32_drivers/lvgl_touch/ft6x36.c:155-157 | after an overwrite of an existing single-element queue, the next receive yields exactly the new sample and leaves the queue empty, whatever it held before; an absent queue stays absent |
| Ft6x36.PressedSample | components/lvgl_esp32_drivers/lvgl_touch/ft6x36.c:135-149 | a single-touch block is stored as Pressed at the oriented decoded position, from which undoing the orientation recovers the raw decoded position; with 12-bit masks and no orientation switches both stored coordinates lie in 0..0xFFF |
| Ft6x36.Init | components/lvgl_esp32_drivers/lvgl_touch/ft6x36.c:67-99 | init sets the flag, keeps the address's low byte, leaves the stored sample alone, and with the queue built either seeds a fresh queue with the stored sample or, when creation fails, leaves no queue |
| Ft6x36.InitFromPowerOn | components/lvgl_esp32_drivers/lvgl_touch/ft6x36.c:34-98 | the first init leaves the sample (-1, -1, Released) stored and waiting in the queue |
| Ft6x36.Read | components/lvgl_esp32_drivers/lvgl_touch/ft6x36.c:108-160 | uninitialised: nothing changes, no bus read, false; initialised: one 5-byte read at the status register, release (sticky coordinates, send iff previously Pressed) unless exactly one point, else store the pressed sample and send; the caller's record equals the stored sample; always false |
| Ft6x36.NonTouchPollsAgree | components/lvgl_esp32_drivers/lvgl_touch/ft6x36.c:121-131 | a bus error, no touch and multi-touch have identical effects |
| Ft6x36.SecondReleaseIsSilent | components/lvgl_esp32_drivers/lvgl_touch/ft6x36.c:122-131 | a second non-touch poll in a row leaves state and record unchanged and sends nothing |
| Ft6x36.SilentPollChangesNothing | components/lvgl_esp32_drivers/lvgl_touch/ft6x36.c:121-157 | with the queue built, a poll that sends nothing leaves the driver state exactly as it was, so every change of the stored sample is sent |
| Ft6x36.ReadKeepsQueueCurrent | components/lvgl_esp32_drivers/lvgl_touch/ft6x36.c:122-157 | while nothing reads the queue: if it holds the stored sample before a poll, it holds the new stored sample after it |
| Ft6x36.ReadKeepsQueueFresh | components/lvgl_esp32_drivers/lvgl_touch/ft6x36.c:122-157 | with a reader present: if the queue holds nothing or the stored sample before a poll, it holds nothing or the new stored sample after it |
| Ft6x36.TakeKeepsQueueFresh | components/lvgl_esp32_drivers/lvgl_touch/ft6x36.c:31-38 | a reader taking from such a queue gets nothing or the stored sample, and leaves the queue holding nothing or the stored sample |
| Ft6x36.GestureIdAsWritten | components/lvgl_esp32_drivers/lvgl_touch/ft6x36.c:50-60 | uninitialised: 0 and no bus access; initialised: one 1-byte read of the gesture register, returning the register on success and the buffer's prior contents on failure |
| Ft6x36.GestureIdFailureLeaksBuffer | components/lvgl_esp32_drivers/lvgl_touch/ft6x36.c:55-59 | on a failed read the accessor returns whatever the buffer held; for every non-zero buffer value that differs from the documented 0 |
| Ft6x36.GestureId | components/lvgl_esp32_drivers/lvgl_touch/ft6x36.c:45-60 | the documented accessor: 0 when uninitialised or when the read fails, the register value otherwise |
| Polling.Run | components/lvgl_esp32_drivers/lvgl_touch/ft6x36.c:108-160 | successive polls never change the init flag or address, send at most one sample per poll, and leave an uninitialised driver untouched |
| Polling.RunState | components/lvgl_esp32_drivers/lvgl_touch/ft6x36.c:121-135 | after a run the state is Pressed exactly when the last poll reported one touch point |
| Polling.RunCoordinates | components/lvgl_esp32_drivers/lvgl_touch/ft6x36.c:129-149 | coordinates are sticky: they are those of the last single-touch poll, decoded and oriented, or the starting ones if there was none |
| Polling.RunReportsStored | components/lvgl_esp32_drivers/lvgl_touch/ft6x36.c:129-152 | after any poll the caller's record shows the stored sample |
| Polling.RunPublishCount | components/lvgl_esp32_drivers/lvgl_touch/ft6x36.c:122-157 | with the queue built, a run sends once per single-touch poll plus once per Pressed-to-Released edge, and never otherwise |
| Polling.RunWithoutQueue | components/lvgl_esp32_drivers/lvgl_touch/ft6x36.c:125-157 | without the queue nothing is sent and the channel is never touched |
| Polling.PressesPublishEach | components/lvgl_esp32_drivers/lvgl_touch/ft6x36.c:155-157 | N consecutive single-touch polls send N samples |
| Polling.ReleasedIdle | components/lvgl_esp32_drivers/lvgl_touch/ft6x36.c:121-131 | non-touch polls of a released driver change nothing, send nothing and report the same record |
| Polling.RunKeepsQueueCurrent | components/lvgl_esp32_drivers/lvgl_touch/ft6x36.c:122-157 | while nothing reads the queue: once it holds the stored sample it keeps holding it through any run, and the last sample sent is the stored one |
| Polling.QueueMirrorsSampleAfterInit | components/lvgl_esp32_drivers/lvgl_touch/ft6x36.c:91-157 | while nothing reads the queue: after power-on, a successful init and any polls, the queue holds exactly the stored sample |

## Left out

- The I2C transport (`lvgl_i2c_read`, `ft6x06_i2c_read8`) is a call into code outside the driver; a read is an input value (`BusRead`, `ByteRead`) and the issued request is an output (`BusRequest`).
- The five identification reads in `ft6x06_init` only feed log output and do not affect control flow; ESP logging is left out everywhere, including the error-code text.
- FreeRTOS queue allocation, blocking and the consumer task are left out; the queue is a single slot, and a reader's receive is the operation `Take`, not a task interleaved with the polls.
- Sending to a queue whose creation failed dereferences a NULL handle in the source, whose behaviour is undefined; the model records the attempted send in `published` and leaves the absent queue absent.
- LVGL types are reduced to the three fields of the input record the driver writes; `LV_HOR_RES`/`LV_VER_RES` are fixed configuration values rather than queries of the default display.
- The values of `FT6X36_MSB_MASK`, `FT6X36_LSB_MASK` and the register offsets live in `ft6x36.h`, which is not part of this model; the round-trip lemmas use 12-bit masks (0x0F, 0xFF) and are stated for those.
- The precedence slip at ft6x36.c line 57 (`ret` receives the comparison result) only changes the logged error text and is not modelled.

## Findings

| source | as written | input that shows it | evidently intended | confidence | as-written member | corrected member |
|---|---|---|---|---|---|---|
| components/lvgl_esp32_drivers/lvgl_touch/ft6x36.c:55-59 | on a failed gesture read the function still returns `data_buf`, a local that was never initialised | initialised driver, read fails, buffer holds any non-zero value such as 0x5A: returns that value | return 0x00 on failure, as the function's own documentation promises | medium: assumes the bus layer leaves the buffer unwritten on failure; not executed | Ft6x36.GestureIdFailureLeaksBuffer | Ft6x36.GestureId |
