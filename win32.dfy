/** The Win32 platform layer (`src/win32_platform.cpp`): the DIB section that
    backs the pixel buffer, client-rectangle arithmetic, the window procedure's
    key, close and destroy handling, the message pump and frame loop that
    watch the `running` flag, controller polling, and the audio size
    arithmetic. Calls into Windows, XInput and WASAPI are parameters. */
module Win32 {
  import opened CInt
  import opened GameTypes
  import opened Game


  // ---------------------------------------------------------------------------
  // Windows constants
  // ---------------------------------------------------------------------------

  const WM_DESTROY: int := 0x0002
  const WM_SIZE: int := 0x0005
  const WM_PAINT: int := 0x000F
  const WM_CLOSE: int := 0x0010
  const WM_QUIT: int := 0x0012
  const WM_ACTIVATEAPP: int := 0x001C
  const WM_KEYDOWN: int := 0x0100
  const WM_KEYUP: int := 0x0101
  const WM_SYSKEYDOWN: int := 0x0104
  const WM_SYSKEYUP: int := 0x0105
  const VK_F4: int := 0x73

  /** `XUSER_MAX_COUNT`, the number of controllers XInput can report. */
  const XUSER_MAX_COUNT: int := 4

  // ---------------------------------------------------------------------------
  // The DIB section
  // ---------------------------------------------------------------------------

  /** The fields of `BITMAPINFOHEADER` that ResizeDIBSection sets. */
  datatype BitmapInfoHeader = BitmapInfoHeader(
    biSize: int, biWidth: int, biHeight: int, biPlanes: int, biBitCount: int, biCompression: int)

  /** `sizeof(BITMAPINFOHEADER)`. */
  const BITMAPINFOHEADER_SIZE: int := 40
  const BI_RGB: int := 0
  const BYTES_PER_PIXEL: int := 4

  /** A bitmap of the given size fills its allocation exactly: 4*w*h bytes,
      rows of 4*w bytes with no padding, so the game may draw into all of it. */
  lemma DibFillsAllocation(memory: array<Byte>, width: int, height: int)
    requires 0 < width && 0 < height && memory.Length == BYTES_PER_PIXEL * width * height
    ensures memory.Length == (BYTES_PER_PIXEL * width) * height
    ensures Drawable(GraphicsBuffer(memory, 0, width, height, BYTES_PER_PIXEL * width))
    ensures ImageSpan(GraphicsBuffer(memory, 0, width, height, BYTES_PER_PIXEL * width)) == memory.Length
  {
    assert (height - 1) * (4 * width) + 4 * width == height * (4 * width);
  }

  /** `win32_graphics_buffer`: the bitmap header, the memory the pixels live
      in (null when VirtualAlloc failed) and the buffer's geometry. The
      ghost `released` records every allocation handed back to VirtualFree. */
  class DibSection {
    var info: BitmapInfoHeader
    var memory: array?<Byte>
    var width: int
    var height: int
    var pitch: int
    ghost var released: seq<array<Byte>>

    /** The zero-initialised global. */
    constructor ()
      ensures memory == null && width == 0 && height == 0 && pitch == 0
      ensures info == BitmapInfoHeader(0, 0, 0, 0, 0, 0) && released == []
    {
      info := BitmapInfoHeader(0, 0, 0, 0, 0, 0);
      memory := null;
      width, height, pitch := 0, 0, 0;
      released := [];
    }

    /** `ResizeDIBSection`: release the old memory, describe a 32-bit
        bottom-up RGB bitmap of the new size (biHeight is positive), and
        commit `4 * width * height` bytes. `granted` is whether VirtualAlloc
        commits a request of positive size; committed pages read as zero. */
    method ResizeDIBSection(newWidth: int, newHeight: int, granted: bool)
      requires InInt32(BYTES_PER_PIXEL * newWidth) && InInt32(BYTES_PER_PIXEL * newWidth * newHeight)
      modifies this
      ensures info == BitmapInfoHeader(BITMAPINFOHEADER_SIZE, newWidth, newHeight, 1, 32, BI_RGB)
      ensures width == newWidth && height == newHeight && pitch == BYTES_PER_PIXEL * newWidth
      ensures released == old(released) + (if old(memory) != null then [old(memory)] else [])
      ensures memory != null <==> granted && 0 < BYTES_PER_PIXEL * newWidth * newHeight
      ensures memory != null ==> fresh(memory) && memory.Length == BYTES_PER_PIXEL * newWidth * newHeight
      ensures memory != null ==> memory.Length == pitch * height
      ensures memory != null ==> forall k :: 0 <= k < memory.Length ==> memory[k] == 0
      ensures memory != null ==> Drawable(GameBuffer())
    {
      if memory != null {
        // VirtualFree(buffer->memory, NULL, MEM_RELEASE)
        released := released + [memory];
      }
      info := BitmapInfoHeader(BITMAPINFOHEADER_SIZE, newWidth, newHeight, 1, 32, BI_RGB);
      width := newWidth;
      height := newHeight;
      var bitmapMemSize := BYTES_PER_PIXEL * newWidth * newHeight;
      if granted && 0 < bitmapMemSize {
        memory := new Byte[bitmapMemSize](_ => 0);
      } else {
        memory := null;
      }
      pitch := width * BYTES_PER_PIXEL;
      if memory != null {
        ResizedBufferDrawable(this);
      }
    }

    /** The `graphics_buffer` WinMain hands to the game each frame. */
    function GameBuffer(): (b: GraphicsBuffer)
      requires memory != null
      reads this
      ensures b.memory == memory && b.base == 0
      ensures b.width == width && b.height == height && b.pitch == pitch
    {
      GraphicsBuffer(memory, 0, width, height, pitch)
    }
  }

  /** The state a granted ResizeDIBSection leaves (memory of 4*w*h bytes,
      pitch 4*w) gives a frame buffer the game can draw into, and when the
      bitmap is not empty its image covers the whole allocation. */
  lemma ResizedBufferDrawable(d: DibSection)
    requires d.memory != null
    requires d.pitch == BYTES_PER_PIXEL * d.width && d.memory.Length == BYTES_PER_PIXEL * d.width * d.height
    ensures Drawable(d.GameBuffer())
    ensures 0 < d.width && 0 < d.height ==> ImageSpan(d.GameBuffer()) == d.memory.Length
  {
    if 0 < d.width && 0 < d.height {
      DibFillsAllocation(d.memory, d.width, d.height);
    }
  }

  // ---------------------------------------------------------------------------
  // Client rectangle
  // ---------------------------------------------------------------------------

  datatype Rect = Rect(left: int, top: int, right: int, bottom: int)
  datatype WindowDimension = WindowDimension(width: int, height: int)

  /** `GetWindowDimension` on the rectangle GetClientRect reports: the
      dimension spans the rectangle, from its left and top edges to its right
      and bottom ones. */
  function GetWindowDimension(clientRect: Rect): (d: WindowDimension)
    ensures clientRect.left + d.width == clientRect.right
    ensures clientRect.top + d.height == clientRect.bottom
  {
    WindowDimension(clientRect.right - clientRect.left, clientRect.bottom - clientRect.top)
  }

  /** What GetClientRect reports: client coordinates, so the upper-left
      corner is (0, 0), and the lower-right corner is not above or left of it. */
  predicate ClientArea(r: Rect)
  {
    r.left == 0 && r.top == 0 && 0 <= r.right && 0 <= r.bottom
  }

  /** On a client rectangle the dimension is non-negative and is the
      lower-right corner, so the destination `0, 0, dim.width, dim.height`
      that CopyBufferToWindow passes to StretchDIBits is the whole client
      area. Conversely, every non-negative dimension comes from exactly one
      client rectangle. */
  lemma ClientAreaDimension(r: Rect, w: int, h: int)
    requires ClientArea(r)
    ensures 0 <= GetWindowDimension(r).width && 0 <= GetWindowDimension(r).height
    ensures Rect(0, 0, GetWindowDimension(r).width, GetWindowDimension(r).height) == r
    ensures GetWindowDimension(r) == WindowDimension(w, h) <==> r == Rect(0, 0, w, h)
  {
  }

  // ---------------------------------------------------------------------------
  // Key messages
  // ---------------------------------------------------------------------------

  /** A window message: `LPARAM` is 64 bits wide, `WPARAM` an unsigned word. */
  datatype Msg = Msg(message: int, wParam: nat, lParam: bv64)

  /** What the window procedure reads from a key message's lParam. */
  datatype KeyTransition = KeyTransition(wasDown: bool, isDown: bool, altPressed: bool)

  /** The three flags the callback computes from lParam, with the masks
      `1 << 30` (previous key state), `1 << 31` (transition state) and
      `1 << 29` (context code, Alt held). `1 << 31` is the `int` INT_MIN,
      which widens to LPARAM with its sign, so the isDown test inspects bits
      31 to 63. */
  function DecodeKey(lParam: bv64): KeyTransition
  {
    KeyTransition(
      lParam & 0x4000_0000 != 0,
      lParam & 0xFFFF_FFFF_8000_0000 == 0,
      lParam & 0x2000_0000 != 0)
  }

  /** The lParam a keyboard driver builds: the repeat count, scan code and
      extended-key bits below bit 29, then the context code (Alt), the
      previous key state and the transition state. */
  function EncodeKey(t: KeyTransition, low: bv64): bv64
  {
    (low & 0x1FFF_FFFF)
    | (if t.altPressed then 0x2000_0000 else 0)
    | (if t.wasDown then 0x4000_0000 else 0)
    | (if t.isDown then 0 else 0x8000_0000)
  }

  /** Decoding recovers the flags whatever the low bits are. */
  lemma DecodeEncode(t: KeyTransition, low: bv64)
    ensures DecodeKey(EncodeKey(t, low)) == t
  {
    var l := EncodeKey(t, low);
    assert (l & 0x4000_0000 != 0) == t.wasDown;
    assert (l & 0xFFFF_FFFF_8000_0000 == 0) == t.isDown;
    assert (l & 0x2000_0000 != 0) == t.altPressed;
  }

  /** Only bits 29 to 63 of lParam (the mask 0xFFFF_FFFF_E000_0000) matter
      to the decoding. */
  lemma DecodeIgnoresLowBits(l1: bv64, l2: bv64)
    requires l1 & 0xFFFF_FFFF_E000_0000 == l2 & 0xFFFF_FFFF_E000_0000
    ensures DecodeKey(l1) == DecodeKey(l2)
  {
    DecodedBitsAgree(l1, l2);
  }

  /** Words that agree on bits 29 to 63 agree under each decoding mask. */
  lemma DecodedBitsAgree(l1: bv64, l2: bv64)
    requires l1 & 0xFFFF_FFFF_E000_0000 == l2 & 0xFFFF_FFFF_E000_0000
    ensures l1 & 0x2000_0000 == l2 & 0x2000_0000
    ensures l1 & 0x4000_0000 == l2 & 0x4000_0000
    ensures l1 & 0xFFFF_FFFF_8000_0000 == l2 & 0xFFFF_FFFF_8000_0000
  {
  }

  predicate IsKeyMessage(message: int)
  {
    message == WM_SYSKEYDOWN || message == WM_SYSKEYUP || message == WM_KEYDOWN || message == WM_KEYUP
  }

  /** `uint32_t keycode = wParam`. */
  function Keycode(wParam: nat): int
  {
    WrapU32(wParam)
  }

  /** The messages that end the game: WM_DESTROY, WM_CLOSE, and a key message
      whose state changed while Alt was held on VK_F4. */
  predicate ClosesWindow(msg: Msg)
  {
    msg.message == WM_DESTROY || msg.message == WM_CLOSE ||
    (IsKeyMessage(msg.message) &&
     var t := DecodeKey(msg.lParam);
     t.wasDown != t.isDown && t.altPressed && Keycode(msg.wParam) == VK_F4)
  }

  /** The messages the window procedure answers itself; the rest go to DefWindowProc. */
  predicate HandledMessage(message: int)
  {
    message == WM_SIZE || message == WM_DESTROY || IsKeyMessage(message) ||
    message == WM_CLOSE || message == WM_ACTIVATEAPP || message == WM_PAINT
  }

  /** Alt+F4 pressed (a fresh press, bit 30 clear, bit 31 clear, bit 29 set)
      closes the window, whatever the repeat count and scan code; the same
      press without Alt or on another key does not. */
  lemma AltF4Closes(message: int, wParam: nat, low: bv64, alt: bool)
    requires IsKeyMessage(message)
    ensures ClosesWindow(Msg(message, wParam, EncodeKey(KeyTransition(false, true, alt), low)))
        <==> alt && Keycode(wParam) == VK_F4
  {
    DecodeEncode(KeyTransition(false, true, alt), low);
  }

  /** An auto-repeat (was down, still down) or a release of a key already up
      changes nothing, even for Alt+F4. */
  lemma RepeatIgnored(message: int, wParam: nat, low: bv64, wasDown: bool)
    requires IsKeyMessage(message)
    ensures !ClosesWindow(Msg(message, wParam, EncodeKey(KeyTransition(wasDown, wasDown, true), low)))
  {
    DecodeEncode(KeyTransition(wasDown, wasDown, true), low);
  }

  /** A message read by the WinMain pump stops the loop when it is WM_QUIT or
      when dispatching it closes the window. */
  predicate StopsLoop(msg: Msg)
  {
    msg.message == WM_QUIT || ClosesWindow(msg)
  }

  /** Whether a frame's batch of pending messages stops the loop. */
  predicate StopsIn(queue: seq<Msg>)
  {
    exists i :: 0 <= i < |queue| && StopsLoop(queue[i])
  }

  /** The number of frames the WinMain loop runs when frame t finds the
      messages frames[t] pending: it runs up to and including the first
      frame whose messages stop it (that frame's input and update still
      happen), or all frames when none does. */
  function FramesRun(frames: seq<seq<Msg>>): (n: nat)
    ensures n <= |frames| && (0 < |frames| ==> 0 < n)
    ensures forall t :: 0 <= t < n - 1 ==> !StopsIn(frames[t])
    ensures n < |frames| ==> StopsIn(frames[n - 1])
  {
    if |frames| == 0 then 0
    else if StopsIn(frames[0]) then 1
    else 1 + FramesRun(frames[1..])
  }

  // ---------------------------------------------------------------------------
  // Controllers
  // ---------------------------------------------------------------------------

  /** The `XINPUT_GAMEPAD` fields the loop reads; the sticks are not modelled.
      The button masks are written as literals below: DPAD_UP 0x0001,
      DPAD_DOWN 0x0002, DPAD_LEFT 0x0004, DPAD_RIGHT 0x0008, START 0x0010,
      BACK 0x0020, LEFT_THUMB 0x0040, RIGHT_THUMB 0x0080, LEFT_SHOULDER
      0x0100, RIGHT_SHOULDER 0x0200, A 0x1000, B 0x2000, X 0x4000, Y 0x8000.
      Together they are 0xF3FF, every button XInput defines. */
  datatype Gamepad = Gamepad(wButtons: bv16, bLeftTrigger: Byte, bRightTrigger: Byte)

  /** `(pad->wButtons & mask)` stored into a `bool`. */
  function Held(wButtons: bv16, mask: bv16): bool
  {
    wButtons & mask != 0
  }

  /** The controller one available pad fills in: the four dpad bits, the ten
      other buttons, a trigger off its rest position for buttons 10 and 11,
      and the zero of `game_input gameInput = {}` for buttons 12 to 19. */
  function PadToController(pad: Gamepad): PlayerController
  {
    var w := pad.wButtons;
    PlayerController(
      [Held(w, 0x0001), Held(w, 0x0002), Held(w, 0x0004), Held(w, 0x0008)],
      [Held(w, 0x1000), Held(w, 0x2000), Held(w, 0x4000), Held(w, 0x8000),
       Held(w, 0x0010), Held(w, 0x0020), Held(w, 0x0040), Held(w, 0x0080),
       Held(w, 0x0100), Held(w, 0x0200),
       pad.bLeftTrigger != 0, pad.bRightTrigger != 0,
       false, false, false, false, false, false, false, false])
  }

  /** Words whose dpad bits test alike agree on the dpad bits. */
  lemma TestsAgree4(w1: bv16, w2: bv16)
    requires Held(w1, 0x0001) == Held(w2, 0x0001) && Held(w1, 0x0002) == Held(w2, 0x0002)
    requires Held(w1, 0x0004) == Held(w2, 0x0004) && Held(w1, 0x0008) == Held(w2, 0x0008)
    ensures w1 & 0x000F == w2 & 0x000F
  {
  }

  /** Words whose other ten button bits test alike agree on those bits. */
  lemma TestsAgree10(w1: bv16, w2: bv16)
    requires Held(w1, 0x0010) == Held(w2, 0x0010) && Held(w1, 0x0020) == Held(w2, 0x0020)
    requires Held(w1, 0x0040) == Held(w2, 0x0040) && Held(w1, 0x0080) == Held(w2, 0x0080)
    requires Held(w1, 0x0100) == Held(w2, 0x0100) && Held(w1, 0x0200) == Held(w2, 0x0200)
    requires Held(w1, 0x1000) == Held(w2, 0x1000) && Held(w1, 0x2000) == Held(w2, 0x2000)
    requires Held(w1, 0x4000) == Held(w2, 0x4000) && Held(w1, 0x8000) == Held(w2, 0x8000)
    ensures w1 & 0xF3F0 == w2 & 0xF3F0
  {
  }

  /** The mapped bits are the dpad bits together with the other ten. */
  lemma JoinMapped(w1: bv16, w2: bv16)
    requires w1 & 0x000F == w2 & 0x000F && w1 & 0xF3F0 == w2 & 0xF3F0
    ensures w1 & 0xF3FF == w2 & 0xF3FF
  {
  }

  lemma SplitMapped(w1: bv16, w2: bv16)
    requires w1 & 0xF3FF == w2 & 0xF3FF
    ensures w1 & 0x000F == w2 & 0x000F && w1 & 0xF3F0 == w2 & 0xF3F0
  {
  }

  /** Words that agree on the dpad bits test them alike. */
  lemma AgreeLow4(w1: bv16, w2: bv16)
    requires w1 & 0x000F == w2 & 0x000F
    ensures Held(w1, 0x0001) == Held(w2, 0x0001) && Held(w1, 0x0002) == Held(w2, 0x0002)
    ensures Held(w1, 0x0004) == Held(w2, 0x0004) && Held(w1, 0x0008) == Held(w2, 0x0008)
  {
  }

  /** Words that agree on the other ten button bits test them alike. */
  lemma AgreeHigh10(w1: bv16, w2: bv16)
    requires w1 & 0xF3F0 == w2 & 0xF3F0
    ensures Held(w1, 0x0010) == Held(w2, 0x0010) && Held(w1, 0x0020) == Held(w2, 0x0020)
    ensures Held(w1, 0x0040) == Held(w2, 0x0040) && Held(w1, 0x0080) == Held(w2, 0x0080)
    ensures Held(w1, 0x0100) == Held(w2, 0x0100) && Held(w1, 0x0200) == Held(w2, 0x0200)
    ensures Held(w1, 0x1000) == Held(w2, 0x1000) && Held(w1, 0x2000) == Held(w2, 0x2000)
    ensures Held(w1, 0x4000) == Held(w2, 0x4000) && Held(w1, 0x8000) == Held(w2, 0x8000)
  {
  }

  /** The dpad of the controller fixes the pad's dpad bits. */
  lemma DpadDeterminesBits(p1: Gamepad, p2: Gamepad)
    requires PadToController(p1).dpad == PadToController(p2).dpad
    ensures p1.wButtons & 0x000F == p2.wButtons & 0x000F
  {
    var d1, d2 := PadToController(p1).dpad, PadToController(p2).dpad;
    assert d1[0] == d2[0] && d1[1] == d2[1] && d1[2] == d2[2] && d1[3] == d2[3];
    TestsAgree4(p1.wButtons, p2.wButtons);
  }

  /** The buttons of the controller fix the pad's other button bits and
      whether each trigger is pressed. */
  lemma ButtonsDetermineBits(p1: Gamepad, p2: Gamepad)
    requires PadToController(p1).buttons == PadToController(p2).buttons
    ensures p1.wButtons & 0xF3F0 == p2.wButtons & 0xF3F0
    ensures (p1.bLeftTrigger != 0) == (p2.bLeftTrigger != 0)
    ensures (p1.bRightTrigger != 0) == (p2.bRightTrigger != 0)
  {
    var b1, b2 := PadToController(p1).buttons, PadToController(p2).buttons;
    assert b1[0] == b2[0] && b1[1] == b2[1] && b1[2] == b2[2] && b1[3] == b2[3] && b1[4] == b2[4];
    assert b1[5] == b2[5] && b1[6] == b2[6] && b1[7] == b2[7] && b1[8] == b2[8] && b1[9] == b2[9];
    assert b1[10] == b2[10] && b1[11] == b2[11];
    TestsAgree10(p1.wButtons, p2.wButtons);
  }

  /** The pad's dpad bits fix the controller's dpad. */
  lemma BitsDetermineDpad(p1: Gamepad, p2: Gamepad)
    requires p1.wButtons & 0x000F == p2.wButtons & 0x000F
    ensures PadToController(p1).dpad == PadToController(p2).dpad
  {
    var d1, d2 := PadToController(p1).dpad, PadToController(p2).dpad;
    AgreeLow4(p1.wButtons, p2.wButtons);
  }

  /** The pad's other button bits and trigger states fix the controller's buttons. */
  lemma BitsDetermineButtons(p1: Gamepad, p2: Gamepad)
    requires p1.wButtons & 0xF3F0 == p2.wButtons & 0xF3F0
    requires (p1.bLeftTrigger != 0) == (p2.bLeftTrigger != 0)
    requires (p1.bRightTrigger != 0) == (p2.bRightTrigger != 0)
    ensures PadToController(p1).buttons == PadToController(p2).buttons
  {
    var b1, b2 := PadToController(p1).buttons, PadToController(p2).buttons;
    AgreeHigh10(p1.wButtons, p2.wButtons);
  }

  /** Equal controllers come from pads that agree on the mapped bits and triggers. */
  lemma ControllerDeterminesPad(p1: Gamepad, p2: Gamepad)
    requires PadToController(p1) == PadToController(p2)
    ensures p1.wButtons & 0xF3FF == p2.wButtons & 0xF3FF
    ensures (p1.bLeftTrigger != 0) == (p2.bLeftTrigger != 0)
    ensures (p1.bRightTrigger != 0) == (p2.bRightTrigger != 0)
  {
    DpadDeterminesBits(p1, p2);
    ButtonsDetermineBits(p1, p2);
    JoinMapped(p1.wButtons, p2.wButtons);
  }

  /** Pads that agree on the mapped bits and triggers give equal controllers. */
  lemma PadDeterminesController(p1: Gamepad, p2: Gamepad)
    requires p1.wButtons & 0xF3FF == p2.wButtons & 0xF3FF
    requires (p1.bLeftTrigger != 0) == (p2.bLeftTrigger != 0)
    requires (p1.bRightTrigger != 0) == (p2.bRightTrigger != 0)
    ensures PadToController(p1) == PadToController(p2)
  {
    SplitMapped(p1.wButtons, p2.wButtons);
    BitsDetermineDpad(p1, p2);
    BitsDetermineButtons(p1, p2);
  }

  /** The controller records exactly the fourteen defined button bits of the
      pad and whether each trigger is off its rest position: two pads give
      the same controller iff they agree on those. Buttons 12 to 19 stay false. */
  lemma PadToControllerExact(p1: Gamepad, p2: Gamepad)
    ensures PadToController(p1) == PadToController(p2) <==>
      (p1.wButtons & 0xF3FF == p2.wButtons & 0xF3FF &&
       (p1.bLeftTrigger != 0) == (p2.bLeftTrigger != 0) &&
       (p1.bRightTrigger != 0) == (p2.bRightTrigger != 0))
    ensures PadToController(p1).buttons[10] <==> p1.bLeftTrigger != 0
    ensures PadToController(p1).buttons[11] <==> p1.bRightTrigger != 0
    ensures forall k :: 12 <= k < 20 ==> !PadToController(p1).buttons[k]
  {
    if PadToController(p1) == PadToController(p2) {
      ControllerDeterminesPad(p1, p2);
    }
    if p1.wButtons & 0xF3FF == p2.wButtons & 0xF3FF &&
       (p1.bLeftTrigger != 0) == (p2.bLeftTrigger != 0) &&
       (p1.bRightTrigger != 0) == (p2.bRightTrigger != 0) {
      PadDeterminesController(p1, p2);
    }
  }

  /** What `XInputGetState` answers, pad by pad: `None` for any result other
      than ERROR_SUCCESS. */
  type GetStateFn = int -> Option<Gamepad>

  /** `XInputGetStateStub`: every pad answers ERROR_NOT_SUPPORTED. */
  function GetStateStub(): (getState: GetStateFn)
    ensures forall i :: getState(i).None?
  {
    (i: int) => None
  }

  /** `LoadXInput` as written: `XInputGetState_` receives the function that
      xinput1_4.dll or xinput1_3.dll exports (`exported`, `None` when neither
      library loads or GetProcAddress finds nothing), and otherwise keeps the
      null of its static initialisation (`None`); the stub is never assigned. */
  function LoadXInputAsWritten(exported: Option<GetStateFn>): (getState: Option<GetStateFn>)
    ensures exported.Some? ==> getState == exported
    ensures exported.None? ==> getState.None?
  {
    if exported.Some? then exported else None
  }

  /** On a machine without XInput the frame loop's first XInputGetState call
      goes through a null pointer. */
  lemma MissingXInputLeavesNull()
    ensures LoadXInputAsWritten(None).None?
  {
  }

  /** `LoadXInput` with the stub as the fallback the stubs are evidently
      there for: the exported function when there is one, otherwise the stub. */
  function LoadXInput(exported: Option<GetStateFn>): (getState: GetStateFn)
    ensures exported.Some? ==> getState == exported.value
    ensures exported.None? ==> forall i :: getState(i).None?
  {
    if exported.Some? then exported.value else GetStateStub()
  }

  /** The loop then sees no controller at all rather than calling through null. */
  lemma MissingXInputPollsNeutral()
    ensures PolledInput(LoadXInput(None)) == NeutralInput
  {
    var input := PolledInput(LoadXInput(None));
    assert forall k :: 0 <= k < CONTROLLER_SLOTS ==> input.controllers[k] == NeutralController;
    assert input.controllers == NeutralInput.controllers;
  }

  /** `maxControllers`: XUSER_MAX_COUNT clamped to the slots of `game_input`. */
  function MaxControllers(): (n: int)
    ensures n <= CONTROLLER_SLOTS && n <= XUSER_MAX_COUNT
    ensures n == CONTROLLER_SLOTS || n == XUSER_MAX_COUNT
  {
    if XUSER_MAX_COUNT > CONTROLLER_SLOTS then CONTROLLER_SLOTS else XUSER_MAX_COUNT
  }

  /** The input the loop builds from XInputGetState, given as `getState`:
      `None` stands for any result other than ERROR_SUCCESS. Slot i holds
      pad i when i is below the clamp and the pad answered, and a neutral
      controller otherwise; the keyboard stays neutral. */
  function PolledInput(getState: GetStateFn): GameInput
  {
    var controllers := seq(CONTROLLER_SLOTS, i =>
      if i < MaxControllers() && getState(i).Some? then PadToController(getState(i).value)
      else NeutralController);
    assert |controllers| == CONTROLLER_SLOTS;
    GameInput(controllers, NeutralController)
  }

  /** The controller for-loop of WinMain. */
  method PollControllers(getState: GetStateFn) returns (gameInput: GameInput)
    ensures gameInput == PolledInput(getState)
  {
    gameInput := NeutralInput;
    var maxControllers := XUSER_MAX_COUNT;
    if maxControllers > |gameInput.controllers| {
      maxControllers := |gameInput.controllers|;
    }
    var i := 0;
    while i < maxControllers
      invariant 0 <= i <= maxControllers == MaxControllers()
      invariant gameInput.keyboard == NeutralController
      invariant forall k :: 0 <= k < CONTROLLER_SLOTS ==>
        gameInput.controllers[k] ==
          (if k < i && getState(k).Some? then PadToController(getState(k).value) else NeutralController)
    {
      var state := getState(i);
      if state.Some? {
        var pad := state.value;
        gameInput := gameInput.(controllers := gameInput.controllers[i := PadToController(pad)]);
      }
      i := i + 1;
    }
  }

  // ---------------------------------------------------------------------------
  // Audio size arithmetic
  // ---------------------------------------------------------------------------

  const WAVE_FORMAT_PCM: int := 1
  const SAMPLES_PER_SECOND: int := 48000

  /** The `WAVEFORMATEX` fields InitAudio fills (WORD and DWORD fields). */
  datatype WaveFormat = WaveFormat(
    wFormatTag: int, nChannels: int, nSamplesPerSec: int, wBitsPerSample: int,
    nBlockAlign: int, nAvgBytesPerSec: int, cbSize: int)

  /** `waveFormatPrimary`: 16-bit stereo PCM at the requested rate. */
  function PrimaryWaveFormat(samplesPerSec: int): (f: WaveFormat)
    requires InInt32(samplesPerSec)
    ensures f.nChannels == 2 && f.wBitsPerSample == 16
    ensures f.nBlockAlign * 8 == f.nChannels * f.wBitsPerSample
    ensures 0 <= samplesPerSec ==> f.nSamplesPerSec == samplesPerSec
    ensures f.nAvgBytesPerSec == WrapU32(f.nSamplesPerSec * f.nBlockAlign)
    ensures 0 <= samplesPerSec < 0x4000_0000 ==> f.nAvgBytesPerSec == samplesPerSec * f.nBlockAlign
  {
    var nChannels := 2;
    var wBits := 16;
    var nBlockAlign := (nChannels * wBits) / 8;
    var nSamplesPerSec := WrapU32(samplesPerSec);
    WaveFormat(WAVE_FORMAT_PCM, nChannels, nSamplesPerSec, wBits,
               nBlockAlign, WrapU32(nSamplesPerSec * nBlockAlign), 0)
  }

  /** How far InitAudio's sequence of COM calls got: every call before
      GetBufferSize, or a later one before the format fields are copied, or
      Start or the volume service, may fail; the device reports the buffer
      size in frames. */
  datatype InitOutcome =
    | FailedBeforeBufferSize
    | FailedBeforeFormat(bufferFrames: int)
    | FailedAfterFormat(bufferFrames: int)
    | Initialized(bufferFrames: int)

  /** `win32_audio_client` without its COM interface pointers. */
  class AudioClient {
    var bufferSize: int
    var sampleBytes: int
    var bitDepth: int
    var channels: int

    constructor ()
      ensures bufferSize == 0 && sampleBytes == 0 && bitDepth == 0 && channels == 0
    {
      bufferSize, sampleBytes, bitDepth, channels := 0, 0, 0, 0;
    }

    /** `InitAudio`: clear the client, then record the device buffer size
        and the sample layout of the format handed to Initialize (the
        primary format: the closest-format query is disabled). Returns
        whether every COM call succeeded. */
    method InitAudio(samplesPerSec: int, outcome: InitOutcome) returns (ok: bool)
      requires InInt32(samplesPerSec)
      requires !outcome.FailedBeforeBufferSize? ==> InUint32(outcome.bufferFrames)
      modifies this
      ensures ok <==> outcome.Initialized?
      ensures bufferSize == (if outcome.FailedBeforeBufferSize? then 0 else outcome.bufferFrames)
      ensures outcome.FailedBeforeBufferSize? || outcome.FailedBeforeFormat? ==>
        sampleBytes == 0 && bitDepth == 0 && channels == 0
      ensures outcome.FailedAfterFormat? || outcome.Initialized? ==>
        var f := PrimaryWaveFormat(samplesPerSec);
        sampleBytes == f.nBlockAlign && bitDepth == f.wBitsPerSample && channels == f.nChannels
    {
      bufferSize, sampleBytes, bitDepth, channels := 0, 0, 0, 0;
      var waveFormatClosest := PrimaryWaveFormat(samplesPerSec);
      if outcome.FailedBeforeBufferSize? {
        return false;
      }
      bufferSize := outcome.bufferFrames;
      if outcome.FailedBeforeFormat? {
        return false;
      }
      sampleBytes := (waveFormatClosest.nChannels * waveFormatClosest.wBitsPerSample) / 8;
      bitDepth := waveFormatClosest.wBitsPerSample;
      channels := waveFormatClosest.nChannels;
      ok := outcome.Initialized?;
    }

    /** `MakeAudioBuffer`: ask for every frame the device has free and fill
        in the rate and layout. `padding` is GetCurrentPadding's answer
        (None when it fails; the buffer then stays zero), `memory` what
        GetBuffer returns (None when it fails). */
    function MakeAudioBuffer(padding: Option<int>, memory: Option<array<Byte>>): (r: (bool, SoundBuffer))
      requires padding.Some? ==> InUint32(padding.value)
      requires InUint32(bufferSize)
      reads this
      ensures padding.None? ==> r == (false, EmptySound)
      ensures padding.Some? ==> r.0 == memory.Some?
      ensures padding.Some? ==> (r.1.memory == null <==> memory.None?)
      ensures padding.Some? && padding.value <= bufferSize < TWO_31 ==>
        r.1.samplesRequested == bufferSize - padding.value
      ensures padding.Some? ==>
        r.1.samplesPerSecond == SAMPLES_PER_SECOND && r.1.channels == channels &&
        (0 <= bitDepth ==> r.1.bytesPerSample * 8 <= bitDepth < r.1.bytesPerSample * 8 + 8)
    {
      if padding.None? then (false, EmptySound)
      else
        var samplesRequested := U32ToInt32(WrapU32(bufferSize - padding.value));
        var sound := SoundBuffer(
          if memory.Some? then memory.value else null,
          SAMPLES_PER_SECOND, samplesRequested, CDiv(bitDepth, 8), channels);
        (memory.Some?, sound)
    }
  }

  /** Once InitAudio has succeeded, a frame's sound buffer has the layout the
      device expects (bytesPerSample * channels == sampleBytes, the format's
      nBlockAlign), and when GetBuffer hands back room for the requested
      frames the game may fill all of it. */
  lemma AudioBufferFits(client: AudioClient, samplesPerSec: int, padding: int, memory: array<Byte>)
    requires InInt32(samplesPerSec) && InUint32(padding) && InUint32(client.bufferSize)
    requires client.sampleBytes == PrimaryWaveFormat(samplesPerSec).nBlockAlign
    requires client.bitDepth == PrimaryWaveFormat(samplesPerSec).wBitsPerSample
    requires client.channels == PrimaryWaveFormat(samplesPerSec).nChannels
    requires padding <= client.bufferSize < TWO_31
    requires (client.bufferSize - padding) * client.sampleBytes <= memory.Length
    ensures var sound := client.MakeAudioBuffer(Some(padding), Some(memory)).1;
      sound.bytesPerSample * sound.channels == client.sampleBytes &&
      sound.samplesRequested == client.bufferSize - padding &&
      Audible(sound)
  {
    var sound := client.MakeAudioBuffer(Some(padding), Some(memory)).1;
    assert sound.bytesPerSample == 2 && sound.channels == 2;
  }

  // ---------------------------------------------------------------------------
  // The window procedure and the frame loop
  // ---------------------------------------------------------------------------

  /** The global `running` flag with the two places that read and write it. */
  class Win32Platform {
    var running: bool

    constructor ()
      ensures !running
    {
      running := false;
    }

    /** `MainWindowCallback` for the parts that have an effect here: the
        close messages and Alt+F4 clear `running`, nothing sets it. Returns
        whether the message went to DefWindowProc. */
    method MainWindowCallback(msg: Msg) returns (toDefWindowProc: bool)
      modifies this
      ensures running == (old(running) && !ClosesWindow(msg))
      ensures toDefWindowProc <==> !HandledMessage(msg.message)
    {
      toDefWindowProc := false;
      if msg.message == WM_SIZE {
      } else if msg.message == WM_DESTROY {
        running := false;
      } else if IsKeyMessage(msg.message) {
        var keycode := Keycode(msg.wParam);
        var t := DecodeKey(msg.lParam);
        if t.wasDown != t.isDown {
          // the W, A, S, D cases only write debug output
          if t.altPressed && keycode == VK_F4 {
            running := false;
          }
        }
      } else if msg.message == WM_CLOSE {
        running := false;
      } else if msg.message == WM_ACTIVATEAPP {
      } else if msg.message == WM_PAINT {
        // BeginPaint, CopyBufferToWindow, EndPaint
      } else {
        toDefWindowProc := true;
      }
    }

    /** The inner `while(PeekMessage(...))` loop: WM_QUIT clears `running`,
        every other message is dispatched to the window procedure. */
    method PumpMessages(queue: seq<Msg>)
      modifies this
      ensures running == (old(running) && !StopsIn(queue))
    {
      var i := 0;
      while i < |queue|
        invariant 0 <= i <= |queue|
        invariant running == (old(running) && forall k :: 0 <= k < i ==> !StopsLoop(queue[k]))
      {
        var message := queue[i];
        if message.message == WM_QUIT {
          running := false;
        } else {
          var _ := MainWindowCallback(message);
        }
        i := i + 1;
      }
    }

    /** The `while(running)` loop of WinMain from `running = true` on. Frame
        t finds messages[t] pending and the pads answering as pads[t]; it
        pumps the messages and then polls the controllers, whatever the
        messages did to `running`. Returns the input of every frame run. */
    method RunLoop(messages: seq<seq<Msg>>, pads: seq<GetStateFn>) returns (inputs: seq<GameInput>)
      requires |pads| == |messages|
      modifies this
      ensures |inputs| == FramesRun(messages)
      ensures forall t :: 0 <= t < |inputs| ==> inputs[t] == PolledInput(pads[t])
      ensures running <==> forall t :: 0 <= t < |messages| ==> !StopsIn(messages[t])
    {
      running := true;
      inputs := [];
      var t := 0;
      while running && t < |messages|
        invariant 0 <= t <= |messages| && |inputs| == t
        invariant running <==> forall u :: 0 <= u < t ==> !StopsIn(messages[u])
        invariant running ==> t <= FramesRun(messages)
        invariant !running ==> t == FramesRun(messages)
        invariant forall u :: 0 <= u < t ==> inputs[u] == PolledInput(pads[u])
      {
        PumpMessages(messages[t]);
        var gameInput := PollControllers(pads[t]);
        inputs := inputs + [gameInput];
        t := t + 1;
      }
    }
  }
}
