# raika platform layer, modelled in Dafny

raika is a small C++ game with interchangeable platform layers. The game
(`src/raika.cpp`) fills two buffers each frame. It draws a blue/green
gradient into the pixel buffer and writes a tone into the sound buffer.
Each platform layer owns the window, the input devices and the audio device,
and calls the game once a frame:

- Win32 (`src/win32_platform.cpp`): a DIB section as the pixel buffer, a
  window procedure, a `PeekMessage` pump, XInput controllers and WASAPI audio.
- Wayland (`src/wl_platform.cpp`): one shared-memory pool split into a front
  and a back buffer, a randomly named shared-memory file, and WASD keys read
  through xkb.
- XCB (`src/linux_platform.cpp`): an event loop that runs until the window
  manager asks to delete the window.

The project models each of these in its own module. A shared module holds the
C integer semantics.

| file | module | models |
|---|---|---|
| `cint.dfy` | `CInt` | unsigned 32-bit wrap-around, `int` conversion, C's truncating `/`, and the division facts the proofs need |
| `game_types.dfy` | `GameTypes` | the records of `src/raika.h` |
| `game.dfy` | `Game` | `RenderGradient`, `GameOutputSound`, `GameUpdateAndRender` and the game's statics (class `Game`) |
| `win32.dfy` | `Win32` | DIB section (class `DibSection`), client rectangle, key-message decoding, window procedure, message pump and frame loop (class `Win32Platform`), controller mapping, audio client (class `AudioClient`) |
| `wayland.dfy` | `Wayland` | pool layout, front/back selection, `randname`, `create_shm_file`, the key handler, and the listeners that change globals (class `WaylandClient`) |
| `xcb.dfy` | `Xcb` | `handleEvent` and the `while(running)` polling loop (class `XcbClient`) |

Memory that C reaches through a pointer is an `array<Byte>` plus a byte
offset into it, so Wayland's two buffers share one pool array. Every call
into the operating system becomes a parameter of the operation that makes
it. Those calls are the clock, `shm_open`, the xkb keysym lookup,
`XInputGetState`, `PeekMessage`, `xcb_poll_for_event`, `VirtualAlloc`, and
WASAPI's results. The sample value `int64_t(waveAmplitude * sinf(...))` is the
oracle `sample(pos, period)`. The model proves where each sample's bytes go and
how the phase advances, not what the sine is.

Where the code and the design description differ, the model follows the code:

- In WinMain, the frame where `running` becomes false still polls the
  controllers, builds the buffers and runs the game update. That frame's
  messages are pumped first, and the loop condition is only tested afterwards.
- `src/raika.h` declares `game_input` with only `controllers[4]`. Yet
  `src/raika.cpp` and `src/wl_platform.cpp` both use a `keyboard` controller.
  The model's `GameInput` has both fields.

## Model

| member | source | states |
|---|---|---|
| CInt.WrapU32 | src/wl_platform.cpp:166 | the stored unsigned 32-bit value is in range, congruent to the input mod 2^32, and equal to it when it already fits |
| CInt.U32ToInt32 | src/win32_platform.cpp:161 | an unsigned 32-bit value read as `int` is in range, congruent mod 2^32, and unchanged exactly when below 2^31 |
| CInt.CDiv | src/raika.cpp:17 | C's integer `/`: the magnitude is the quotient of the magnitudes, the sign follows the operands, and it agrees with Euclidean division on non-negative operands |
| Game.PackXrgb | src/raika.cpp:42-46 | the packed XRGB pixel is below 2^24 (the top byte is zero) |
| Game.PackBytes | src/raika.cpp:46 | stored little-endian, the packed pixel puts blue in byte 0, green in byte 1, red in byte 2 and zero in byte 3 |
| Game.PackOrLayout | src/raika.cpp:46 | the source's 32-bit OR of the shifted channels has blue, green and red in bytes 0, 1 and 2 and a zero top byte, the same layout PackBytes proves of the sum |
| Game.StoreLoad | src/raika.cpp:46 | four bytes written as a 32-bit value read back as that value |
| Game.PixelInRange | src/raika.cpp:38-48 | in a drawable buffer every byte of every pixel of every row lies inside the buffer's memory |
| Game.GradientComplete | src/raika.cpp:39-48 | once every row is written, the memory is the gradient image and nothing outside the image changed |
| Game.RenderGradient | src/raika.cpp:33-50 | every pixel (x, y) holds blue = (x + xoffset) mod 256, green = (y + yoffset) mod 256, red = 0; the row padding between 4*width and pitch, and every byte outside the image, is unchanged |
| Game.GradientPixelAt | src/raika.cpp:42-46 | after RenderGradient, the 32-bit pixel at (x, y) reads as green * 256 + blue and is below 2^16 |
| Game.GradientDetermined | src/raika.cpp:42-43 | offsets equal mod 256 give byte-for-byte the same image, because of the `uint8_t` truncation |
| Game.OffsetWrapHarmless | src/raika.cpp:52-53 | a 32-bit wrap of an offset does not change its value mod 256, so it does not change the image |
| Game.WavePeriod | src/raika.cpp:17 | `samplesPerSecond / waveHz` as C's truncating division (CDiv states its magnitude and sign) |
| Game.PhaseStep | src/raika.cpp:26-29 | one `currentAudioPos++` with the reset to 0 on reaching the period; PhaseClosedForm gives its iterate |
| Game.Phase | src/raika.cpp:18-29 | the counter after n passes of the sample loop; PhaseClosedForm proves it is (pos + n) mod period from inside [0, period) |
| Game.PhaseClosedForm | src/raika.cpp:26-29 | starting inside [0, period), the counter after n samples is (pos + n) mod period and stays inside [0, period) |
| Game.SampleIndexDecodes | src/raika.cpp:21-24 | byte b of channel j of frame i is at (i * channels + j) * bytesPerSample + b; it lies inside frame i and decodes back to frame i and byte b |
| Game.ToneLayout | src/raika.cpp:18-25 | in the written sound buffer, byte b of every channel of frame i is byte b of frame i's sample, so all channels of a frame carry the same sample |
| Game.CopyLowBytes | src/raika.cpp:22 | `memcpy` of n <= 8 bytes of an int64: the n low bytes land little-endian at the target and nothing else changes |
| Game.SampleByte | src/raika.cpp:22 | byte b of the little-endian image of the sample, v / 256^b mod 256; CopyLowBytes shows that the `memcpy` writes exactly these bytes |
| Game.WaveHz | src/raika.cpp:61 | the tone frequency chosen from keyboard button 0; WaveHzChoice states both cases |
| Game.WaveHzChoice | src/raika.cpp:61 | the tone is 456 Hz exactly when keyboard button 0 is pressed, and 256 Hz exactly when it is not |
| Game.Game.constructor | src/raika.cpp:9 | the offsets and the phase counter start at zero |
| Game.Game.OutputSound | src/raika.cpp:8-31 | the phase counter advances by the number of samples requested (wrapping at the period) and the first samplesRequested * channels * bytesPerSample bytes hold the tone; the rest of the buffer is unchanged |
| Game.Game.UpdateAndRender | src/raika.cpp:55-67 | the x offset grows by 10 when dpad[0] is held and the y offset by 10 when dpad[1] is held; the tone is written at the chosen frequency and the gradient is drawn with the new offsets |
| Win32.DibFillsAllocation | src/win32_platform.cpp:205-214 | a 4*w*h byte allocation with pitch 4*w is drawable and exactly covered by the image |
| Win32.DibSection.constructor | src/win32_platform.cpp:44 | the zero-initialised global: no memory, zero size, zero header |
| Win32.DibSection.ResizeDIBSection | src/win32_platform.cpp:185-215 | the old memory is released; the header describes a 32-bpp uncompressed bottom-up w-by-h bitmap; the memory is null or fresh, zeroed and 4*w*h bytes with pitch 4*w, and then the game buffer built from it is drawable |
| Win32.DibSection.GameBuffer | src/win32_platform.cpp:421-425 | the game's pixel buffer has the DIB section's memory, width, height and pitch |
| Win32.ResizedBufferDrawable | src/win32_platform.cpp:202-214 | the frame buffer `GameBuffer` builds from a granted resize is drawable, and a non-empty bitmap's image covers the whole allocation |
| Win32.GetWindowDimension | src/win32_platform.cpp:172-183 | the dimension spans the client rectangle from its left/top to its right/bottom edge |
| Win32.ClientAreaDimension | src/win32_platform.cpp:177-180 | on the rectangle GetClientRect returns (corner at 0, 0), the dimension is non-negative and is the lower-right corner, so the StretchDIBits destination at lines 227-229 is the whole client area; a dimension (w, h) comes exactly from the client rectangle (0, 0, w, h) |
| Win32.DecodeKey | src/win32_platform.cpp:259-261 | the previous-state, transition and Alt flags read from lParam with the masks `1 << 30`, the sign-widened `1 << 31` and `1 << 29` (line 279); DecodeEncode shows it recovers exactly what a key lParam encodes |
| Win32.DecodeEncode | src/win32_platform.cpp:259-261 | decoding a key lParam recovers the previous-state, transition and Alt flags whatever the repeat count and scan code |
| Win32.DecodeIgnoresLowBits | src/win32_platform.cpp:260-279 | only bits 29 to 63 of lParam affect the decoding; `1 << 31` is widened with its sign |
| Win32.Keycode | src/win32_platform.cpp:259 | `uint32_t keycode = wParam`: the word truncated to 32 bits (WrapU32 states the range and congruence) |
| Win32.ClosesWindow | src/win32_platform.cpp:250-288 | the messages that clear `running`: WM_DESTROY, WM_CLOSE, and a key transition with Alt held on VK_F4; AltF4Closes and RepeatIgnored state the key case, MainWindowCallback its effect |
| Win32.AltF4Closes | src/win32_platform.cpp:263-283 | a fresh key press closes the window if and only if Alt is held and the key is VK_F4 |
| Win32.RepeatIgnored | src/win32_platform.cpp:263 | an auto-repeat, or a release of a key already up, never closes the window, even Alt+F4 |
| Win32.FramesRun | src/win32_platform.cpp:366-378 | the loop runs up to and including the first frame whose messages stop it, or every frame when none does |
| Win32.PadToController | src/win32_platform.cpp:393-409 | button and dpad i take the XINPUT bit the source tests, buttons 10 and 11 the non-zero triggers; PadToControllerExact states exactly what it keeps |
| Win32.ControllerDeterminesPad | src/win32_platform.cpp:393-409 | equal controllers come from pads that agree on the 14 mapped button bits and on whether each trigger is pressed |
| Win32.PadDeterminesController | src/win32_platform.cpp:393-409 | pads that agree on the mapped bits and trigger states give equal controllers |
| Win32.PadToControllerExact | src/win32_platform.cpp:392-409 | two pads give the same controller iff they agree on mask 0xF3FF and on both trigger states; button 10 and button 11 are the triggers; buttons 12 to 19 stay false |
| Win32.GetStateStub | src/win32_platform.cpp:52 | the stub answers no pad |
| Win32.LoadXInputAsWritten | src/win32_platform.cpp:54-67 | `XInputGetState_` is the exported function or stays null |
| Win32.LoadXInput | src/win32_platform.cpp:52-67 | with the stub as fallback: the exported function when there is one, otherwise no pad answers |
| Win32.MissingXInputPollsNeutral | src/win32_platform.cpp:381-419 | with the fallback, a machine without XInput polls an all-neutral input |
| Win32.MaxControllers | src/win32_platform.cpp:383-386 | the clamp is the smaller of XUSER_MAX_COUNT and the four controller slots |
| Win32.PolledInput | src/win32_platform.cpp:381-419 | the input a frame's polling builds: slot i is the mapped pad below the clamp when XInputGetState succeeds, neutral otherwise; PollControllers computes it by the loop and MissingXInputPollsNeutral applies it |
| Win32.PollControllers | src/win32_platform.cpp:381-419 | slot i holds the mapped pad i when i is below the clamp and XInputGetState succeeds, a neutral controller otherwise; the keyboard is neutral |
| Win32.PrimaryWaveFormat | src/win32_platform.cpp:97-104 | 16-bit stereo PCM; the block align is channels * bits / 8; the rate is the requested one; the byte rate is rate * block align, wrapped to a DWORD |
| Win32.AudioClient.constructor | src/win32_platform.cpp:45 | the zero-initialised audio client |
| Win32.AudioClient.InitAudio | src/win32_platform.cpp:70-154 | succeeds iff every COM call does; the client is cleared first; the buffer size is recorded once GetBufferSize has run; the sample layout is that of the primary format once the calls before it succeeded |
| Win32.AudioClient.MakeAudioBuffer | src/win32_platform.cpp:156-170 | a failed GetCurrentPadding leaves the buffer zero; otherwise it requests bufferSize - padding frames at 48000 Hz with the client's channels and bitDepth / 8 bytes per sample, and it succeeds iff GetBuffer does |
| Win32.AudioBufferFits | src/win32_platform.cpp:143-164 | after InitAudio, bytesPerSample * channels equals the device's block align, and a buffer with room for the requested frames is one the game may fill |
| Win32.Win32Platform.constructor | src/win32_platform.cpp:43 | `running` starts false |
| Win32.Win32Platform.MainWindowCallback | src/win32_platform.cpp:237-315 | WM_DESTROY, WM_CLOSE and Alt+F4 clear `running` and nothing sets it; exactly the unhandled messages go to DefWindowProc |
| Win32.Win32Platform.PumpMessages | src/win32_platform.cpp:371-378 | `running` ends false iff it was false already or some pending message is WM_QUIT or closes the window |
| Win32.Win32Platform.RunLoop | src/win32_platform.cpp:359-419 | the loop runs FramesRun frames, each frame's input is the polled input of that frame, and `running` ends true iff no frame's messages stop it |
| Wayland.PoolSizeFits | src/wl_platform.cpp:280-283 | `shmMemSize` is 16 588 800, fits in `int`, and is two buffers' worth |
| Wayland.PoolLayout | src/wl_platform.cpp:288-291 | both buffers are 1920 by 1080 with stride 7680; `a` is at offset 0 and `b` right after it, and each `mem` points at its buffer's offset |
| Wayland.SlotGraphics | src/wl_platform.cpp:130-136 | the game's pixel buffer over a slot: the pool, the slot's offset, 1920 by 1080, pitch 7680; PoolLayoutSound proves it drawable and inside its slot |
| Wayland.PoolLayoutSound | src/wl_platform.cpp:283-291 | each buffer lies inside the pool, the two do not overlap, and each is exactly the image drawn into it |
| Wayland.GetBuffer | src/wl_platform.cpp:41-47 | `getBuffer(first)`: `a` when `first == currentA`, otherwise `b`; FrontAndBack states that front and back are the two distinct slots |
| Wayland.FrontAndBack | src/wl_platform.cpp:41-47 | front and back are always the two different buffers, and `a` is the front one iff `currentA` |
| Wayland.FlipSwaps | src/wl_platform.cpp:142 | flipping `currentA` swaps front and back; flipping twice restores them |
| Wayland.DpadEntry | src/wl_platform.cpp:168-192 | a keysym drives at most one of the four dpad entries |
| Wayland.DpadEntryIgnoresCase | src/wl_platform.cpp:169-187 | a letter's upper- and lower-case keysyms drive the same entry, and only w, a, s and d drive one |
| Wayland.DpadEntryKeys | src/wl_platform.cpp:168-188 | entry 0 is driven by exactly W/w, entry 1 by S/s, entry 2 by A/a, entry 3 by D/d |
| Wayland.KeyApplied | src/wl_platform.cpp:168-192 | a key event changes only the dpad entry its keysym drives, which takes the key state; another keysym changes nothing |
| Wayland.KeyAppliedIdempotent | src/wl_platform.cpp:171-186 | delivering the same key state twice has the effect of delivering it once |
| Wayland.PressThenRelease | src/wl_platform.cpp:171-186 | a press followed by a release of the same key leaves the same input as the release alone |
| Wayland.NameChars | src/wl_platform.cpp:53-56 | `randname` writes one character per 5-bit group, n in all |
| Wayland.NameChar | src/wl_platform.cpp:54 | `'A' + (r & 15) + (r & 16) * 2` for non-negative r; NameCharGroup states its range and that it encodes the low five bits |
| Wayland.NameCharGroup | src/wl_platform.cpp:54 | each character is in 'A'..'P' or 'a'..'p' and encodes the low five bits of r |
| Wayland.NameCharsGroups | src/wl_platform.cpp:53-56 | character k of the name encodes the k-th 5-bit group of the clock reading |
| Wayland.RandName | src/wl_platform.cpp:49-57 | the six name characters are written at the given position and nothing else in the buffer changes |
| Wayland.TemplateShape | src/wl_platform.cpp:62-63 | `sizeof(name) - 7` is the position of the six `X`s, after "/wl_shm-" and before the NUL |
| Wayland.ShmName | src/wl_platform.cpp:62-63 | every attempted name has the template's length |
| Wayland.ShmNameShape | src/wl_platform.cpp:62-63 | a name differs from the template exactly at the six suffix positions, which hold name characters; the prefix and NUL are kept |
| Wayland.ShmFrom | src/wl_platform.cpp:60-71 | the outcome of the retry loop from attempt k on, over the `shm_open` results; ShmFromOutcome states its bound, its result and why earlier attempts failed |
| Wayland.ShmFromOutcome | src/wl_platform.cpp:59-72 | the retry loop stops within 100 attempts; it returns -1 or the non-negative descriptor of its last attempt; every attempt before the last failed with EEXIST; a -1 means the last attempt failed and was the hundredth or failed with another errno |
| Wayland.CreateShmFile | src/wl_platform.cpp:59-72 | the loop returns the descriptor that the retry outcome over its attempts specifies |
| Wayland.WaylandClient.constructor | src/wl_platform.cpp:263-291 | the globals start zeroed, so `currentA` is false: `b` is the first buffer shown (by configure) and `a` the first drawn into; the game's statics are zero |
| Wayland.WaylandClient.ConfigureSurface | src/wl_platform.cpp:100-108 | the front buffer is attached and the selection does not change |
| Wayland.WaylandClient.CallbackDone | src/wl_platform.cpp:120-143 | the game draws the new frame into the back buffer, the back buffer is attached and becomes the front one, the buffer on screen is not written, and the silent sound buffer leaves the phase counter unchanged |
| Wayland.WaylandClient.HandleKey | src/wl_platform.cpp:165-196 | the keysym of scancode key + 8 updates the keyboard controller as KeyApplied says |
| Xcb.Kind | src/linux_platform.cpp:15 | `response_type & ~0x80` as a number; KindIgnoresHighBit states that the sent bit is dropped |
| Xcb.KindIgnoresHighBit | src/linux_platform.cpp:15 | masking with `~0x80` ignores the sent-event bit and yields a code below 128 |
| Xcb.Closes | src/linux_platform.cpp:16-23 | the event that clears `running`: a client message whose data32[0] is the delete atom; ClosesOnlyOnClientMessage states when it holds |
| Xcb.ClosesOnlyOnClientMessage | src/linux_platform.cpp:15-23 | only a client message (response type 33, with or without the high bit) carrying the delete atom closes, and the high bit does not change that |
| Xcb.EventsHandled | src/linux_platform.cpp:113-118 | the loop handles events up to and including the first one that closes, or all of them |
| Xcb.XcbClient.constructor | src/linux_platform.cpp:7-11 | `running` starts false and the delete atom is the one the server returned |
| Xcb.XcbClient.HandleEvent | src/linux_platform.cpp:13-55 | `running` is cleared iff the event is a client message with the delete atom; a null event and every other event leave it unchanged |
| Xcb.XcbClient.Run | src/linux_platform.cpp:113-118 | the loop handles EventsHandled polls and ends with `running` false iff some polled event closes |

## Left out

- `src/sdl_platform.cpp` and `src/main.cpp` are not part of this model.
- Floating point: the analog sticks (`lStickX` and the others), `sinf`, and the amplitude `waveAmplitude`. The sample value is the oracle `sample(pos, period)`.
- Game.Game.OutputSound: the phase counter's 32-bit `int` overflow is not modelled. It would only occur if the period shrank below the counter, which no modelled platform causes.
- Game.Game.UpdateAndRender: the offsets are unbounded integers. `OffsetWrapHarmless` shows that a 32-bit wrap leaves the image unchanged.
- Win32.GetWindowDimension: the `int` subtraction is unbounded, because client rectangles are small.
- Win32.DibSection.ResizeDIBSection: requires the byte count to fit in `int`, because C overflows otherwise. The one caller passes 1280 by 720.
- Win32.DibSection.GameBuffer: requires the DIB memory to be non-null. WinMain never checks VirtualAlloc's result, so after a refused allocation (`granted` false leaves `memory` null) the source hands a null 1280 by 720 buffer to the game, which writes through it. That path is undefined behaviour and is not modelled.
- Game.Game.UpdateAndRender: requires an `Audible` sound buffer. WinMain ignores MakeAudioBuffer's result, so when GetBuffer fails the source passes a buffer with null memory but positive samplesRequested, channels and bytesPerSample (what `MakeAudioBuffer(Some(p), None)` returns), and GameOutputSound's memcpy writes through null. That path is not modelled.
- Wayland.WaylandClient.constructor: requires a mapped pool of POOL_BYTES bytes. `main` never checks `allocate_shm_file`'s -1 (reachable, as ShmFromOutcome shows) or `mmap`'s MAP_FAILED, so a failed pool leaves later frames writing through an invalid pointer. That path is not modelled.
- Win32.Win32Platform.RunLoop: the per-frame sound buffer, game update, `ReleaseBuffer`, `StretchDIBits` presentation and timing output are outside the loop model. Each is modelled as its own operation (`MakeAudioBuffer`, `Game.UpdateAndRender`).
- Win32 keyboard: the Win32 window procedure never fills `gameInput.keyboard`; its W/A/S/D cases only write debug output. This is modelled as the neutral keyboard.
- The COM objects of WASAPI (device enumerator, audio client, render client, clock and volume), `TranslateMessage`/`DispatchMessage`, `RegisterClassEx`/`CreateWindowEx`, and `BeginPaint`/`EndPaint` are outside the model. Only their success or failure and the values they report are modelled.
- Win32.Win32Platform.RunLoop: `pads[t]` is what the bound `XInputGetState` answers in frame t. `LoadLibraryA`/`GetProcAddress` reduce to the `exported` option of `LoadXInput`.
- Wayland protocol calls (`wl_surface_attach`, `damage_buffer` and `commit`) are the ghost log `attached`. Registry binding, listeners that do nothing, and `wl_display_dispatch` are outside the model.
- Wayland's `running` is set and never cleared, so its loop is not modelled.
- The xkb keymap (`mmap` of the keymap, `xkb_state_new`, modifier updates) is outside the model. The keysym lookup is the oracle `keysym`.
- `allocate_shm_file` (the `ftruncate` retry on EINTR), `mmap` of the pool, and `shm_unlink` are outside the model.
- The XCB connection, window creation, atom interning and `free(event)` are outside the model. Polling is a finite sequence of results, and the loop stops at its end.

## Findings

| source | as written | input that shows it | evidently intended | confidence | as-written member | corrected member |
|---|---|---|---|---|---|---|
| src/win32_platform.cpp:52-67 | `XInputGetStateStub` is defined but never assigned. When neither XInput DLL loads, `XInputGetState_` keeps its static null, and the frame loop calls through it | a machine without xinput1_4.dll and xinput1_3.dll (`exported` = None) | fall back to the stub, so that no controller is reported | high, not executed | Win32.LoadXInputAsWritten (Win32.MissingXInputLeavesNull) | Win32.LoadXInput (Win32.MissingXInputPollsNeutral) |
