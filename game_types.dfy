/** The records the platform layers hand to the game each frame
    (`src/raika.h`): a pixel buffer, a sound buffer and the input snapshot. */
module GameTypes {
  import opened CInt

  /** `bool dpad[4]`: up, down, left, right. */
  type Dpad = s: seq<bool> | |s| == 4 witness [false, false, false, false]

  /** `bool buttons[20]`. */
  type Buttons = s: seq<bool> | |s| == 20 witness seq(20, _ => false)

  /** `player_controller`. The four analog stick fields are floats and are
      not part of this model. */
  datatype PlayerController = PlayerController(dpad: Dpad, buttons: Buttons)

  /** A controller with nothing pressed: the value of a zero-initialised struct. */
  const NeutralController: PlayerController :=
    PlayerController([false, false, false, false], seq(20, _ => false))

  /** `controllers[4]`; ArrayCount of it is 4. */
  const CONTROLLER_SLOTS: nat := 4
  type Controllers = s: seq<PlayerController> | |s| == CONTROLLER_SLOTS
    witness [NeutralController, NeutralController, NeutralController, NeutralController]

  /** `game_input`, with the `keyboard` controller the game and the Wayland
      layer both use. */
  datatype GameInput = GameInput(controllers: Controllers, keyboard: PlayerController)

  const NeutralInput: GameInput :=
    GameInput([NeutralController, NeutralController, NeutralController, NeutralController],
              NeutralController)

  /** `graphics_buffer`. The C `memory` pointer is the pair (`memory`, `base`):
      an allocation and the byte offset inside it where the image starts.
      `pitch` is in bytes, one pixel is 4 bytes. */
  datatype GraphicsBuffer = GraphicsBuffer(memory: array<Byte>, base: int, width: int, height: int, pitch: int)

  /** `sound_buffer`. `memory` is null when no audio buffer was obtained. */
  datatype SoundBuffer = SoundBuffer(
    memory: array?<Byte>,
    samplesPerSecond: int,
    samplesRequested: int,
    bytesPerSample: int,
    channels: int)

  /** The value of a zero-initialised `sound_buffer`. */
  const EmptySound: SoundBuffer := SoundBuffer(null, 0, 0, 0, 0)
}
