/** The Wayland platform layer (`src/wl_platform.cpp`): two frame buffers
    carved out of one shared-memory pool and used as front and back buffer,
    the random name of the shared-memory file and its retry loop, and the
    WASD keys that drive the keyboard controller. */
module Wayland {
  import opened CInt
  import opened GameTypes
  import opened Game

  // ---------------------------------------------------------------------------
  // The pool and its two buffers
  // ---------------------------------------------------------------------------

  /** `width`, `height` and `bytesPerPixel` of `main` and `callback_done`. */
  const WIDTH: int := 1920
  const HEIGHT: int := 1080
  const BYTES_PER_PIXEL: int := 4

  /** The bytes one buffer occupies: `bytesPerPixel * width * height`. */
  const SLOT_BYTES: int := BYTES_PER_PIXEL * WIDTH * HEIGHT

  /** `shmMemSize`: room for two buffers. */
  const POOL_BYTES: int := BYTES_PER_PIXEL * WIDTH * HEIGHT * 2

  /** `shmMemSize` is computed in `int`; it does not overflow. */
  lemma PoolSizeFits()
    ensures InInt32(POOL_BYTES) && POOL_BYTES == 16_588_800
    ensures POOL_BYTES == 2 * SLOT_BYTES
  {
  }

  /** The arguments of `wl_shm_pool_create_buffer`: offset into the pool,
      width, height and stride. */
  datatype ShmBuffer = ShmBuffer(offset: int, width: int, height: int, stride: int)

  /** `wl_buffer_with_mem`: the protocol buffer and the offset into the mapped
      pool at which its `mem` pointer points. */
  datatype BufferWithMem = BufferWithMem(buffer: ShmBuffer, mem: int)

  /** The two fields of `wl_doubleBuffer`. */
  datatype Slot = A | B

  /** The buffers `main` creates: `a` at offset 0 and `b` just after it, both
      `width` by `height` with a stride of `bytesPerPixel * width`, each `mem`
      pointing where its buffer starts. */
  function PoolLayout(s: Slot): (r: BufferWithMem)
    ensures r.buffer.width == WIDTH && r.buffer.height == HEIGHT
    ensures r.buffer.stride == BYTES_PER_PIXEL * WIDTH
    ensures r.mem == r.buffer.offset
    ensures r.buffer.offset == (if s == A then 0 else SLOT_BYTES)
  {
    match s
    case A => BufferWithMem(ShmBuffer(0, WIDTH, HEIGHT, BYTES_PER_PIXEL * WIDTH), 0)
    case B => BufferWithMem(ShmBuffer(HEIGHT * WIDTH * BYTES_PER_PIXEL, WIDTH, HEIGHT, BYTES_PER_PIXEL * WIDTH),
                            BYTES_PER_PIXEL * WIDTH * HEIGHT)
  }

  /** The graphics buffer `callback_done` hands to the game for a slot. */
  function SlotGraphics(pool: array<Byte>, s: Slot): GraphicsBuffer
  {
    GraphicsBuffer(pool, PoolLayout(s).mem, WIDTH, HEIGHT, WIDTH * BYTES_PER_PIXEL)
  }

  /** Whether byte k of the pool belongs to the buffer of slot s. */
  predicate InSlot(s: Slot, k: int)
  {
    PoolLayout(s).mem <= k < PoolLayout(s).mem + SLOT_BYTES
  }

  /** Each buffer lies inside the pool, the two do not overlap, and each
      one is exactly the image the game draws into it. */
  lemma PoolLayoutSound(pool: array<Byte>, s: Slot)
    requires pool.Length == POOL_BYTES
    ensures 0 <= PoolLayout(s).mem && PoolLayout(s).mem + SLOT_BYTES <= pool.Length
    ensures forall k :: !(InSlot(A, k) && InSlot(B, k))
    ensures Drawable(SlotGraphics(pool, s))
    ensures ImageSpan(SlotGraphics(pool, s)) == SLOT_BYTES
    ensures PoolLayout(s).buffer.stride * PoolLayout(s).buffer.height == SLOT_BYTES
  {
  }

  /** `getBuffer(first)`: the front buffer for `true`, the back buffer for
      `false`, with `currentA` saying whether `a` is the front one. */
  function GetBuffer(currentA: bool, first: bool): Slot
  {
    if first == currentA then A else B
  }

  /** Front and back are always the two different slots, and `a` is the
      front one exactly when `currentA` holds. */
  lemma FrontAndBack(currentA: bool)
    ensures GetBuffer(currentA, true) != GetBuffer(currentA, false)
    ensures GetBuffer(currentA, true) == A <==> currentA
    ensures {GetBuffer(currentA, true), GetBuffer(currentA, false)} == {A, B}
  {
  }

  /** Flipping `currentA` swaps front and back; flipping twice restores them. */
  lemma FlipSwaps(currentA: bool)
    ensures GetBuffer(!currentA, true) == GetBuffer(currentA, false)
    ensures GetBuffer(!currentA, false) == GetBuffer(currentA, true)
    ensures forall first :: GetBuffer(!!currentA, first) == GetBuffer(currentA, first)
  {
  }

  // ---------------------------------------------------------------------------
  // Keyboard
  // ---------------------------------------------------------------------------

  /** The keysyms `keyboard_handle_key` reacts to (XKB_KEY_w and so on). */
  const XKB_KEY_W_UPPER: int := 0x57
  const XKB_KEY_W_LOWER: int := 0x77
  const XKB_KEY_A_UPPER: int := 0x41
  const XKB_KEY_A_LOWER: int := 0x61
  const XKB_KEY_S_UPPER: int := 0x53
  const XKB_KEY_S_LOWER: int := 0x73
  const XKB_KEY_D_UPPER: int := 0x44
  const XKB_KEY_D_LOWER: int := 0x64

  /** The dpad entry a keysym drives: W up, S down, A left, D right, in
      either case; `None` for every other keysym. */
  function DpadEntry(sym: int): (r: Option<nat>)
    ensures r.Some? ==> r.value < 4
  {
    if sym == XKB_KEY_W_LOWER || sym == XKB_KEY_W_UPPER then Some(0)
    else if sym == XKB_KEY_A_LOWER || sym == XKB_KEY_A_UPPER then Some(2)
    else if sym == XKB_KEY_S_LOWER || sym == XKB_KEY_S_UPPER then Some(1)
    else if sym == XKB_KEY_D_LOWER || sym == XKB_KEY_D_UPPER then Some(3)
    else None
  }

  /** The mapping ignores case: an upper-case letter keysym (its lower-case
      one minus 0x20) drives the same entry. */
  lemma DpadEntryIgnoresCase(c: char)
    requires 'a' <= c <= 'z'
    ensures DpadEntry(c as int - 0x20) == DpadEntry(c as int)
    ensures DpadEntry(c as int).Some? <==> c in {'w', 'a', 's', 'd'}
  {
  }

  /** Each dpad entry has exactly its two keysyms. */
  lemma DpadEntryKeys(sym: int, i: nat)
    requires i < 4
    ensures DpadEntry(sym) == Some(i) <==>
      sym in (if i == 0 then {XKB_KEY_W_LOWER, XKB_KEY_W_UPPER}
              else if i == 1 then {XKB_KEY_S_LOWER, XKB_KEY_S_UPPER}
              else if i == 2 then {XKB_KEY_A_LOWER, XKB_KEY_A_UPPER}
              else {XKB_KEY_D_LOWER, XKB_KEY_D_UPPER})
  {
  }

  /** The input after a key event whose keysym is `sym`: the driven dpad
      entry of the keyboard controller takes the key state, everything else
      stays. */
  function KeyApplied(input: GameInput, sym: int, pressed: bool): (r: GameInput)
    ensures r.controllers == input.controllers && r.keyboard.buttons == input.keyboard.buttons
    ensures forall i :: 0 <= i < 4 ==>
      r.keyboard.dpad[i] == (if DpadEntry(sym) == Some(i) then pressed else input.keyboard.dpad[i])
    ensures DpadEntry(sym).None? ==> r == input
  {
    match DpadEntry(sym)
    case None => input
    case Some(i) => input.(keyboard := input.keyboard.(dpad := input.keyboard.dpad[i := pressed]))
  }

  /** Applying the same key state twice changes nothing more. */
  lemma KeyAppliedIdempotent(input: GameInput, sym: int, pressed: bool)
    ensures KeyApplied(KeyApplied(input, sym, pressed), sym, pressed) == KeyApplied(input, sym, pressed)
  {
    var once := KeyApplied(input, sym, pressed);
    var twice := KeyApplied(once, sym, pressed);
    assert twice.keyboard.dpad == once.keyboard.dpad;
  }

  /** A press followed by the release of the same key restores the entry. */
  lemma PressThenRelease(input: GameInput, sym: int)
    ensures KeyApplied(KeyApplied(input, sym, true), sym, false) ==
            KeyApplied(input, sym, false)
  {
    var a := KeyApplied(KeyApplied(input, sym, true), sym, false);
    var b := KeyApplied(input, sym, false);
    assert a.keyboard.dpad == b.keyboard.dpad;
  }

  // ---------------------------------------------------------------------------
  // The shared-memory file name
  // ---------------------------------------------------------------------------

  /** One character of `randname`: `'A' + (r & 15) + (r & 16) * 2` for the
      `long` r. For a positive divisor Dafny's `/` and `%` round toward minus
      infinity, which is what `&` and `>>` do on two's complement, so this
      holds for negative r as well. */
  function NameChar(r: int): char
  {
    ('A' as int + r % 16 + (r / 16 % 2) * 32) as char
  }

  /** The n characters `randname` writes for r: one per 5-bit group. */
  function NameChars(r: int, n: nat): (s: seq<char>)
    ensures |s| == n
    decreases n
  {
    if n == 0 then [] else [NameChar(r)] + NameChars(r / 32, n - 1)
  }

  /** The 5-bit group a name character stands for. */
  function CharGroup(c: char): int
  {
    if c >= 'a' then c as int - 'a' as int + 16 else c as int - 'A' as int
  }

  /** Every character is one of 'A'..'P' or 'a'..'p', and it encodes the low
      five bits of r: bits 0 to 3 pick the letter, bit 4 the case. */
  lemma NameCharGroup(r: int)
    ensures 'A' <= NameChar(r) <= 'P' || 'a' <= NameChar(r) <= 'p'
    ensures CharGroup(NameChar(r)) == r % 32
  {
    DivDiv(r, 16, 2);
  }

  /** Character k of the name is the k-th 5-bit group of r, so the name
      tells the low 5n bits of r apart: different groups, different names. */
  lemma {:induction false} NameCharsGroups(r: int, n: nat, k: nat)
    requires k < n
    ensures NameChars(r, n)[k] == NameChar(r / Pow(32, k))
    ensures CharGroup(NameChars(r, n)[k]) == r / Pow(32, k) % 32
    decreases n
  {
    if k == 0 {
      assert r / Pow(32, 0) == r;
    } else {
      NameCharsGroups(r / 32, n - 1, k - 1);
      DivDiv(r, 32, Pow(32, k - 1));
    }
    NameCharGroup(r / Pow(32, k));
  }

  /** `randname(buf)`: six characters from `tv_nsec`, written at `buf[at..at+6]`
      and nowhere else. */
  method RandName(buf: array<char>, at: int, nsec: int)
    requires 0 <= at && at + 6 <= buf.Length
    modifies buf
    ensures buf[..] == old(buf[..at]) + NameChars(nsec, 6) + old(buf[at + 6..])
  {
    var r := nsec;
    var i := 0;
    while i < 6
      invariant 0 <= i <= 6
      invariant buf[..at + i] == old(buf[..at]) + NameChars(nsec, 6)[..i]
      invariant forall k :: at + i <= k < buf.Length ==> buf[k] == old(buf[k])
      invariant NameChars(nsec, 6)[i..] == NameChars(r, 6 - i)
    {
      assert NameChars(r, 6 - i) == [NameChar(r)] + NameChars(r / 32, 6 - i - 1);
      assert NameChars(nsec, 6)[..i + 1] == NameChars(nsec, 6)[..i] + [NameChar(r)];
      buf[at + i] := NameChar(r);
      r := r / 32;
      i := i + 1;
    }
    assert buf[at + 6..] == old(buf[at + 6..]);
    assert buf[..] == buf[..at + 6] + buf[at + 6..];
  }

  /** `char name[] = "/wl_shm-XXXXXX"`, with its terminating NUL. */
  const NAME_TEMPLATE: seq<char> := "/wl_shm-XXXXXX" + ['\0']

  /** `sizeof(name) - 7`: where `randname` writes. */
  const SUFFIX_AT: int := |NAME_TEMPLATE| - 7

  /** The suffix position is exactly the six `X`s: what comes before is the
      prefix "/wl_shm-" and what comes after is the NUL. */
  lemma TemplateShape()
    ensures |NAME_TEMPLATE| == 15 && SUFFIX_AT == 8
    ensures NAME_TEMPLATE[..SUFFIX_AT] == "/wl_shm-"
    ensures NAME_TEMPLATE[SUFFIX_AT..SUFFIX_AT + 6] == "XXXXXX"
    ensures NAME_TEMPLATE[SUFFIX_AT + 6..] == ['\0']
  {
  }

  /** The name one attempt asks for, given the nanoseconds the clock read. */
  function ShmName(nsec: int): (name: seq<char>)
    ensures |name| == |NAME_TEMPLATE|
  {
    NAME_TEMPLATE[..SUFFIX_AT] + NameChars(nsec, 6) + NAME_TEMPLATE[SUFFIX_AT + 6..]
  }

  /** Every name keeps the prefix and the NUL and has six name characters
      in between, exactly the positions of the `X`s. */
  lemma ShmNameShape(nsec: int)
    ensures ShmName(nsec)[..SUFFIX_AT] == "/wl_shm-"
    ensures ShmName(nsec)[SUFFIX_AT + 6] == '\0'
    ensures forall k :: 0 <= k < |NAME_TEMPLATE| ==>
      (ShmName(nsec)[k] == NAME_TEMPLATE[k] <==> !(SUFFIX_AT <= k < SUFFIX_AT + 6))
    ensures forall k :: SUFFIX_AT <= k < SUFFIX_AT + 6 ==>
      'A' <= ShmName(nsec)[k] <= 'P' || 'a' <= ShmName(nsec)[k] <= 'p'
  {
    TemplateShape();
    var name := ShmName(nsec);
    forall k | SUFFIX_AT <= k < SUFFIX_AT + 6
      ensures 'A' <= name[k] <= 'P' || 'a' <= name[k] <= 'p'
    {
      assert name[k] == NameChars(nsec, 6)[k - SUFFIX_AT];
      NameCharsGroups(nsec, 6, k - SUFFIX_AT);
      NameCharGroup(nsec / Pow(32, k - SUFFIX_AT));
    }
  }

  /** `errno` value EEXIST. */
  const EEXIST: int := 17

  /** `int retries = 100`. */
  const SHM_ATTEMPTS: nat := 100

  /** What `shm_open` gave: a descriptor, negative on failure, and `errno`. */
  datatype OpenResult = OpenResult(fd: int, errno: int)

  /** What `create_shm_file` returns and how many names it tried. */
  datatype ShmOutcome = ShmOutcome(fd: int, attempts: nat)

  /** What attempt k (counted from 0) gets: the clock reading it names the
      file after, and what `shm_open` answers for that name. */
  function Attempts(clock: nat -> int, shmOpen: (nat, seq<char>) -> OpenResult): nat -> OpenResult
  {
    (k: nat) => shmOpen(k, ShmName(clock(k)))
  }

  /** The outcome of the retry loop from attempt k on, given what each
      attempt gets: success returns the descriptor; a failure is retried
      while attempts remain and errno is EEXIST, otherwise the result is -1. */
  function ShmFrom(results: nat -> OpenResult, k: nat): ShmOutcome
    requires k < SHM_ATTEMPTS
    decreases SHM_ATTEMPTS - k
  {
    var res := results(k);
    if res.fd >= 0 then ShmOutcome(res.fd, k + 1)
    else if SHM_ATTEMPTS - (k + 1) > 0 && res.errno == EEXIST then ShmFrom(results, k + 1)
    else ShmOutcome(-1, k + 1)
  }

  /** The loop stops within the remaining attempts, returns -1 or the
      non-negative descriptor of its last attempt, and every attempt before
      the last failed with EEXIST. A -1 means the last attempt failed and
      was the hundredth or did not fail with EEXIST. */
  lemma {:induction false} ShmFromOutcome(results: nat -> OpenResult, k: nat)
    requires k < SHM_ATTEMPTS
    ensures var r := ShmFrom(results, k);
      k < r.attempts <= SHM_ATTEMPTS &&
      (r.fd == -1 || (r.fd >= 0 && r.fd == results(r.attempts - 1).fd)) &&
      (r.fd == -1 ==>
         (results(r.attempts - 1).fd < 0 &&
          (r.attempts == SHM_ATTEMPTS || results(r.attempts - 1).errno != EEXIST))) &&
      (forall j :: k <= j < r.attempts - 1 ==> results(j).fd < 0 && results(j).errno == EEXIST)
    decreases SHM_ATTEMPTS - k
  {
    var res := results(k);
    if res.fd < 0 && SHM_ATTEMPTS - (k + 1) > 0 && res.errno == EEXIST {
      ShmFromOutcome(results, k + 1);
    }
  }

  /** `create_shm_file`: up to 100 names from the clock, each tried with
      `shm_open(O_CREAT | O_EXCL)`. The clock reading and the answer of
      attempt k are the oracles `clock(k)` and `shmOpen(k, name)`. */
  method CreateShmFile(clock: nat -> int, shmOpen: (nat, seq<char>) -> OpenResult) returns (fd: int)
    ensures fd == ShmFrom(Attempts(clock, shmOpen), 0).fd
  {
    var retries := SHM_ATTEMPTS;
    while true
      invariant 0 < retries <= SHM_ATTEMPTS
      invariant ShmFrom(Attempts(clock, shmOpen), 0) == ShmFrom(Attempts(clock, shmOpen), SHM_ATTEMPTS - retries)
      decreases retries
    {
      var attempt := SHM_ATTEMPTS - retries;
      var name := new char[|NAME_TEMPLATE|](i requires 0 <= i < |NAME_TEMPLATE| => NAME_TEMPLATE[i]);
      assert name[..] == NAME_TEMPLATE;
      RandName(name, name.Length - 7, clock(attempt));
      assert name[..] == ShmName(clock(attempt));
      retries := retries - 1;
      var res := shmOpen(attempt, name[..]);
      assert res == Attempts(clock, shmOpen)(attempt);
      if res.fd >= 0 {
        // shm_unlink(name)
        return res.fd;
      }
      if !(retries > 0 && res.errno == EEXIST) {
        break;
      }
    }
    return -1;
  }

  // ---------------------------------------------------------------------------
  // The client: globals and listeners
  // ---------------------------------------------------------------------------

  /** The state `wl_platform.cpp` keeps in globals: `currentA`,
      `globalGameInput`, the mapped pool behind `globalDoubleBuffer`, and the
      game's own statics. `attached` records which buffer each
      `wl_surface_attach` gave the compositor. */
  class WaylandClient {
    var currentA: bool
    var input: GameInput
    const pool: array<Byte>
    const game: Game
    ghost var attached: seq<Slot>

    /** The part of `main` after mapping the pool: the globals start zeroed
        and the two buffers are laid out as `PoolLayout` says. */
    constructor (pool: array<Byte>)
      requires pool.Length == POOL_BYTES
      ensures this.pool == pool && fresh(game)
      ensures !currentA && input == NeutralInput && attached == []
      ensures game.xoffset == 0 && game.yoffset == 0 && game.currentAudioPos == 0
    {
      this.pool := pool;
      currentA := false;
      input := NeutralInput;
      game := new Game();
      attached := [];
    }

    /** `xdgSurface_handle_configure`: attach the front buffer; the selection
        does not change. */
    method ConfigureSurface()
      modifies this`attached
      ensures attached == old(attached) + [GetBuffer(currentA, true)]
    {
      attached := attached + [GetBuffer(currentA, true)];
    }

    /** `callback_done`: the game draws one frame into the back buffer with no
        sound, the back buffer is attached, and `currentA` flips so that it
        becomes the front one. The buffer on screen is not written. */
    method CallbackDone()
      requires pool.Length == POOL_BYTES
      modifies this`currentA, this`attached, game, pool
      ensures currentA == !old(currentA)
      ensures attached == old(attached) + [GetBuffer(old(currentA), false)]
      ensures GetBuffer(currentA, true) == GetBuffer(old(currentA), false)
      ensures game.xoffset == old(game.xoffset) + (if input.keyboard.dpad[0] then 10 else 0)
      ensures game.yoffset == old(game.yoffset) + (if input.keyboard.dpad[1] then 10 else 0)
      ensures game.currentAudioPos == old(game.currentAudioPos)
      ensures IsGradient(SlotGraphics(pool, GetBuffer(old(currentA), false)), old(pool[..]), pool[..],
                         game.xoffset, game.yoffset)
      ensures forall k :: 0 <= k < pool.Length && InSlot(GetBuffer(old(currentA), true), k) ==>
        pool[k] == old(pool[k])
    {
      var back := GetBuffer(currentA, false);
      var graphics := SlotGraphics(pool, back);
      PoolLayoutSound(pool, back);
      game.UpdateAndRender(graphics, EmptySound, input, (pos, period) => 0);
      attached := attached + [back];
      currentA := !currentA;
    }

    /** `keyboard_handle_key`: the keysym of scancode `key + 8`, given by the
        oracle `keysym` for the xkb lookup, drives one dpad entry of the
        keyboard controller, which takes the key state. */
    method HandleKey(key: int, state: int, keysym: int -> int)
      requires InUint32(key) && InUint32(state)
      modifies this`input
      ensures input == KeyApplied(old(input), keysym(WrapU32(key + 8)), state != 0)
    {
      var scancode := WrapU32(key + 8);
      var sym := keysym(scancode);
      input := KeyApplied(input, sym, state != 0);
    }
  }
}
