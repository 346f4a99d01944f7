# Midi-Responsive-ULED in Dafny

This project models the core of a small program that turns piano key
events into LED frames for a WLED light strip. The program keeps a render
table: one pixel record per LED, each with a layer counter and a colour.
When a key is pressed, an animation run starts over a window of
`waterfall_size` pixels centred on the key's index. Each step raises one
pixel's layer and then sends the whole table to the strip. Releasing the key
cancels that run and starts a falling run, which takes the same pixels back
down. A layer never goes below the idle value -1. Every frame is a WLED UDP
realtime packet in the DNRGB protocol (protocol number 4: DRGB with a 16-bit
start index):

- a header of 4, the timeout and the start index 0 as a big-endian 16-bit value;
- then three bytes per LED, lowest index first;
- an idle pixel is sent as (5, 5, 5);
- a lit pixel is sent as the configured colour, or in gradient mode as its
  own hue converted to RGB.

Modules:

- `led.dfy`, module `LedRecord`: the pixel record. `Clamped` is what the
  layer setter stores. `Led` is a class with the unclamped constructor, the
  getter and the clamping setter.
- `frame.dfy`, module `WledFrame`: bytes, colours, the settings (`Config`,
  whose `Default` holds the program's shipped values) and the packet
  encoder `Encode`, a function over a snapshot of the table, with lemmas on
  its layout.
- `render.dfy`, module `Render`: the render table as a class over an
  `array<Led>`, with a ghost `pixels` view tied to the records by `Valid()`.
  - Its constructor builds the table at startup and writes the gradient colours.
  - `UpdateLeds` is the encoder loop, proved equal to `Encode`.
  - `Animate` (with its loop `Steps` and one step `StepOne`) is the waterfall
    run. It is specified by the function `Stepped`, and the lemmas about
    `Stepped` state what runs do to layers.
- `dispatch.dfy`, module `KeyDispatch`: the key-to-index mapping and the
  `Scheduler` class. The class holds the task registry (index to task
  handle), the log of tasks created, and the set of tasks cancelled.
  `HandleKeypress` is the message handler.

Behaviour of the code worth knowing, which the model keeps:

- A press does not cancel the task already registered for the same index.
  The new task only replaces it in the registry (`RepeatedPress`).
- A release with no registered task raises a lookup error. It does not do
  nothing (`StrayRelease`).
- A finished run never removes itself from the registry.
- Pixels start at layer -1, and each step of a run moves one pixel. A
  single press therefore takes its window from -1 to 0, not to 1. Two
  overlapping held notes take the shared pixel to 1, not to 2
  (`SingleNoteScenario`, `OverlapScenario`).

## Model

| member | source | states |
|---|---|---|
| `LedRecord.Clamped` | led.py:15-19 | the stored layer is the least value that is at least the requested one and at least -1: it is the request itself or -1 |
| `LedRecord.Led.constructor` | led.py:6-8 | the constructor stores the layer and colour exactly as given, without clamping, so a new record satisfies the floor invariant only if its layer is at least -1 |
| `LedRecord.Led.Layer` | led.py:10-12 | the getter returns the stored layer unchanged |
| `LedRecord.Led.SetLayer` | led.py:14-19 | after the setter the layer is at least -1; a value below -1 is stored as -1 and any other value exactly; the colour does not change |
| `LedRecord.DecrementAtFloor` | led.py:16-17 | decrementing a pixel already at -1 leaves it at -1, once or any number of times |
| `LedRecord.RepeatedDecrements` | led.py:14-19 | after n >= 1 successive `layer -= 1` updates the layer is max(layer - n, -1), even when the starting layer is below the floor |
| `WledFrame.BigEndian16` | uled_midi.py:107 | the two bytes of the 16-bit start index, high byte first, recombine to the index |
| `WledFrame.Groups` | uled_midi.py:108-119 | the pixel part of a packet has exactly three bytes per pixel |
| `WledFrame.Encode` | uled_midi.py:106-119 | a packet is exactly 4 + 3 * led_count bytes long |
| `WledFrame.GroupsLayout` | uled_midi.py:108-119 | bytes 3i .. 3i+2 of the pixel part are the RGB bytes of pixel i's colour, in ascending pixel order |
| `WledFrame.EncodeLayout` | uled_midi.py:106-119 | packet bytes 0..3 are 4, timeout, 0, 0, and bytes 4+3i .. 4+3i+2 encode pixel i |
| `WledFrame.IdlePixelBytes` | uled_midi.py:115-116 | a pixel with layer <= -1 is sent as 5, 5, 5 in either mode |
| `WledFrame.FixedColorBytes` | uled_midi.py:104-118 | outside gradient mode every pixel with layer >= 0 is sent as the configured colour |
| `WledFrame.GradientColorBytes` | uled_midi.py:110-118 | in gradient mode a pixel with layer >= 0 is sent as its stored colour converted by the colour conversion |
| `WledFrame.AllIdleFrame` | uled_midi.py:107-119 | a table with every layer at -1 encodes as the header followed only by bytes of value 5 |
| `Render.GradientHueBounds` | uled_midi.py:37-41 | every gradient hue lies in 0 .. 359, and hues never decrease along the strip |
| `Render.Stepped` | uled_midi.py:64-71 | a run's steps leave the table length unchanged |
| `Render.RenderTable.constructor` | uled_midi.py:33-41 | startup gives one distinct fresh record per LED, all at layer -1; in gradient mode pixel i < led_count - 1 gets colour [floor(i*360/led_count), 100, 100] and the last pixel keeps [0, 0, 0], otherwise all keep [0, 0, 0] |
| `Render.RenderTable.UpdateLeds` | uled_midi.py:101-119 | the payload the loop builds is exactly the encoding of the current table |
| `Render.RenderTable.Animate` | uled_midi.py:59-75 | a run for index `note` touches only window pixels `note - size/2 + i`, in order, through the clamping setter. A completed run applies all `size` steps and sends `size + 1` frames. A run cancelled before its first step applies no step and sends no frame. A run cancelled at the pause after step k, with 1 <= k <= size, applies k steps and sends k - 1 frames. A run cancelled after its last pause is the same as a completed run. Frame j shows the table after step min(j + 1, size), and the table stays valid |
| `Render.RenderTable.Steps` | uled_midi.py:64-73 | the loop stops in the pause after step k exactly when the run is cancelled there; until then it applies one step and sends one frame per iteration |
| `Render.RenderTable.StepOne` | uled_midi.py:66 | one `layer += 1` or `layer -= 1` on pixel start + i extends the run by exactly that step and keeps the table valid |
| `Render.SteppedSettled` | uled_midi.py:64-73 | no run, rising or falling, takes a layer below -1 |
| `Render.RisingRun` | uled_midi.py:62-66 | over layers >= -1, the first k steps of a rising run add exactly 1 to pixels start .. start+k-1, with start = note - size/2, and leave every other pixel and every colour unchanged |
| `Render.FallingRun` | uled_midi.py:62-71 | the first k steps of a falling run set pixels start .. start+k-1 to max(layer - 1, -1) and leave everything else unchanged |
| `Render.FullUnwind` | uled_midi.py:59-73 | a completed falling run after a completed rising run over the same window restores every pixel exactly |
| `Render.CancelledRiseThenFall` | uled_midi.py:140-151 | a release after a rising run cancelled at step k restores the k pixels reached, but lowers the rest of the window by one layer, floored at -1 |
| `Render.TwoNotes` | uled_midi.py:59-73 | two held notes raise each pixel by the number of their windows that contain it, and releasing both restores the table |
| `Render.InitialFrameIdle` | uled_midi.py:33 | the table as built at startup encodes as the header followed only by bytes of value 5 (every LED idle) |
| `Render.SingleNoteScenario` | uled_midi.py:59-75 | with 10 LEDs, window 3 and index 4, a press lights exactly pixels 3, 4, 5 at layer 0, and the release restores the startup table |
| `Render.OverlapScenario` | uled_midi.py:59-75 | with notes at indexes 4 and 6, shared pixel 5 reaches layer 1 while its neighbours are at 0; releasing both restores the startup table |
| `Render.ShippedKeyWindows` | uled_midi.py:132-134 | with 300 LEDs and a window of 9, keys 21, 22 and 108 map to indexes 0, 3 and 296, and a key's window lies inside the table exactly for keys 23 .. 107 |
| `KeyDispatch.TruncDiv` | uled_midi.py:134 | the quotient is truncated toward zero: the remainder has the dividend's sign and is smaller than the divisor |
| `KeyDispatch.KeyIndexInRange` | uled_midi.py:132-134 | each of the 88 piano keys (21 .. 108) maps to an index in 0 .. led_count - 1 |
| `KeyDispatch.NoteIndexMonotone` | uled_midi.py:132-134 | higher keys never map to lower indexes |
| `KeyDispatch.Scheduler.constructor` | uled_midi.py:30 | the task registry starts empty, with no task created or cancelled |
| `KeyDispatch.Scheduler.HandleKeypress` | uled_midi.py:124-151 | "note_on" with velocity != 0 creates a rising task and puts it under the key's index, replacing without cancelling. "note_on" with velocity 0 and a registered task cancels and removes that task and creates an unregistered falling task. With no registered task it raises the lookup error and changes nothing. Any other message, "note_off" included, changes nothing. The registry keeps only rising tasks created for their own index |
| `KeyDispatch.RepeatedPress` | uled_midi.py:130-148 | press, press, release of one key: the release cancels only the second task; the first is neither cancelled nor registered |
| `KeyDispatch.StrayRelease` | uled_midi.py:140-148 | a release with no prior press ends in the lookup error and starts no task |
| `KeyDispatch.NoteOffIgnored` | uled_midi.py:130-140 | a "note_off" message leaves the pressed key's task registered and cancels nothing |

## Left out

- Keyboard input: device enumeration, opening the port, and the callback
  that hands messages to the event loop (uled_midi.py:11-17, 164-169). These
  are I/O. Messages enter the model as `Message` values.
- The socket and `sendto` (uled_midi.py:44-45, 122). These are network I/O.
  The encoder returns the payload, and `Animate` returns the list of frames
  it would send.
- asyncio scheduling: task creation, `sleep`, `animation_fps`, the `main`
  loop and the interleaving of concurrent runs. The scheduler records the
  tasks it creates and cancels. Cancellation of a run is the parameter
  `stop`: the pause at which the run was cancelled. The model does not
  connect the registry to the runs, and it does not model runs interleaving
  on the table.
- An exception raised inside a run. In particular the `IndexError` past the
  end of the table ends the run after its earlier steps.
- Signal handling, exit, and the debug printout (uled_midi.py:77-83, 153-162).
- `hsv_to_rgb` (uled_midi.py:85-99) is floating-point work. It is the
  parameter `toRgb`, whose results are typed as bytes. The model also types
  the configured colour and the timeout as bytes. Python's `struct.pack`
  would raise on values outside 0..255.
- `Render.RenderTable.Animate`: requires the whole window to lie inside the
  table. The code does not check this. Python reads a negative index from
  the end of the list and raises `IndexError` past the end. With the shipped
  settings (300 LEDs, window 9), `Render.ShippedKeyWindows` shows that:
  - keys 21 and 22 (indexes 0 and 3) start their windows at -4 and -1,
    which wrap to the far end of the strip;
  - key 108 (index 296) reaches index 300.
- `KeyDispatch.TruncDiv`: the key-to-index mapping and the gradient hue are
  computed with exact integer arithmetic, truncating toward zero. This
  idealises the float arithmetic of uled_midi.py:37-40 and 134. Float
  rounding could differ where the exact quotient is a whole number.
- `Render.RenderTable.constructor`: requires at least one LED in gradient
  mode, because the source divides by `led_count` there (uled_midi.py:37).
- The `note` parameter of `update_leds` is unused by the source and is
  dropped.
