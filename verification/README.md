# Rasteriser, animation loops and scan-code decoder

A Dafny model of three connected parts of the LCOM labs, and proofs about them:

- the software rasteriser with its double buffer (`lab5/gpu.c`), as the class `Gpu` over two byte
  arrays. `picture` and `screen` are ghost maps from screen points to colours; `Valid()` says that the
  arrays hold exactly these colours, little-endian, at `(y * x_res + x) * bytes_per_pixel`. What a
  drawing operation does is its *ink*, the map of the points it marks, and every method is proved to
  lay exactly its ink over the picture. Coordinates are `uint16_t` and wrap before they are clipped.
- the animation loops `video_test_move` and `video_test_controller` (`lab5/lab5.c`), as methods that
  drive the rasteriser and that are proved to follow a machine over notifications (`Run`), about which
  the laws over whole runs are proved.
- the three keyboard loops (`lab3/lab3.c`), in the same way, around one incremental decoder.

`dafny verify dfyconfig.toml` checks everything.

| file | content |
|---|---|
| `CTypes.dfy`, `Arithmetic.dfy`, `Bits.dfy` | integer widths; quotients, remainders and powers; bitwise operations and little-endian words |
| `Pictures.dfy`, `Buffers.dfy`, `Colors.dfy`, `Commands.dfy` | pictures and ink; the bijection with byte buffers; tile colours; sequences of commands |
| `Rasteriser.dfy`, `Sprites.dfy`, `Frames.dfy` | the class `Gpu`; sprites at signed positions; rendering a frame |
| `Devices.dfy`, `Runs.dfy` | driver globals and notifications; runs as folds of rounds, which split and stop |
| `VideoMove.dfy`, `Controller.dfy` | the two animation loops |
| `ScanCodes.dfy`, `KeyboardLoops.dfy`, `TimedScan.dfy` | the decoder; the interrupt, polling and timed loops |

How the model reads the source:

- A run of a loop is a finite sequence of what `driver_receive` yields: an error, something of no
  interest, or a hardware notification with a keyboard and a timer bit. A real run is infinite or ends
  with `ESC_BREAKCODE`; the sequence is any prefix of it, so a law about every sequence is a law about
  every moment of every run.
- `kbc_ih` does one of three things (`proj/src/drivers/keyboard.c:35-50`, `proj/src/drivers/kbc.c:10-54`):
  nothing (`NoByte`), store a byte and set `kbd_ih_valid` (`Byte`), or store a byte and leave
  `kbd_ih_valid` alone, when the status read together with the byte shows a parity or timeout error
  (`Spoiled`). The lab 3 loops clear `kbd_ih_valid` first, the lab 5 loops do not; the model keeps both.
- `Times`, `Quotient`, `Remainder`, `Shl`, `Shr` and `Low` are `*`, `/`, `%`, `<<`, `>>` and
  `% (1 << n)` on natural numbers, written as recursions that unfold linearly; `TimesIsProduct`,
  `QuotientIsDivision`, `ShlIsProduct`, `ShrIsQuotient` and `LowIsRemainder` say so. `Ahead(c, x)` is
  `(c - x) mod 2^16`.
- The laws do not share the machines' own tests and constants: what a run has done, which notifications
  and bytes count, and the closed forms are written out in plain numbers over the events and the variables
  (`TimerTicks`, `Received`, `Lost`, `Enter`, `Obeys`, `KeysOf`, `Collapse`, `PixelStored`).
- Preconditions are the conditions under which the C code is defined: `x_res * y_res * bytes_per_pixel
  < 2^31` and 1 to 4 bytes per pixel (`Supported`), shifts whose C value is defined (`PatternDefined`), at least one
  rectangle, at least one clock per frame (for the controller, a frequency of 30 or more). Mask size and
  field position are those of section 4.4 of the VESA BIOS Extension (VBE) Core Functions Standard 3.0.
- The labs declare `counter` as the tick counter; the timer driver in this repository calls it
  `timer_counter` (`proj/src/drivers/timer.c:3`). The model takes them to be one variable, without wrap.
- Where a loop body is long, its inner loop or its branches are methods of their own
  (`DrawPatternRow`, `DrawXpmRow`, `MovementBlock`, `KeyboardBranch` with `HandleCode`, `TimerBranch`).

Things the code does that its names and comments do not suggest, each with its exact condition:

- A direct-colour channel of the pattern counts up from the *low* bits of `first`, not from that
  channel's own field (`ChannelStartsAtItsField`; `ChannelIgnoresItsField` is an instance where they differ).
- The tile size is truncated to a byte. The pattern fills its grid exactly when neither
  `x_res / no_rectangles` nor `y_res / no_rectangles` exceeds 255 (`PatternFillsGrid`). Otherwise it covers
  a smaller corner (`PatternClosedForm`, `PatternColors`), or nothing at all when one of the quotients is a multiple of 256
  (`PatternVanishes`), as with 1 to 4 rectangles at 1024 by 768 (`FewTilesDrawNothing`).
- `kbd_test_scan` and `kbd_test_poll` differ when `scan_code` is left over as `ESC_BREAKCODE`
  (`LoopsAgreeExactly`).
- The loops end on `scan_code` whether or not the byte in it is valid (`UpToEsc`, `PendingAfterEsc`), and
  `kbd_ih_valid` stays set in the controller, which from the first valid byte on handles old bytes again
  and invalid bytes as keys (`KeysFollowHistory`, `HandledIsStored`).

## Model

| member | source | states |
|---|---|---|
| Rasteriser.Gpu.InitMemIndexation | lab5/gpu.c:74-117 | both buffers have exactly `x_res * y_res * bytes_per_pixel` bytes, computed without overflow in 32 bits, and show whatever their memory holds |
| Pictures.Format.BytesPerPixel | lab5/gpu.c:86-86 | the least number of bytes that holds the bits of a pixel |
| Rasteriser.Gpu.DrawPixel | lab5/gpu.c:119-129 | on the screen, byte `(y * x_res + x) * b + k` of the backbuffer becomes byte k of the colour, `(color / 256^k) % 256`, for k < b = bytes_per_pixel, and every other byte stays; off the screen every byte stays; in the picture exactly that pixel changes |
| Rasteriser.Gpu.DrawHLine | lab5/gpu.c:131-138 | exactly the on-screen points of row y less than `len` ahead of x, modulo 2^16, change |
| Rasteriser.Gpu.DrawRectangle | lab5/gpu.c:140-147 | exactly the on-screen points less than `width` and `height` ahead of (x, y), modulo 2^16, change |
| Rasteriser.Gpu.DrawPattern | lab5/gpu.c:150-183 | the nested tile loops lay exactly the pattern's ink |
| Rasteriser.Gpu.DrawXpm | lab5/gpu.c:185-201 | the image loops lay exactly the image's ink; the walking pointer is at row * width + column throughout, clipped pixels included |
| Rasteriser.Gpu.Commit | lab5/gpu.c:204-206 | the screen becomes the picture, byte for byte; no other method changes the screen |
| Rasteriser.Gpu.ClearAll | lab5/gpu.c:208-213 | the picture is black and every byte of the backbuffer is zero |
| Rasteriser.Gpu.ExecuteAll | lab5/gpu.c:119-213 | refinement: any command sequence on the bytes is the same sequence of inks on the picture, and the final bytes are the encoding of the final picture |
| Commands.LastWriterWins | lab5/gpu.c:119-213 | after any command sequence a pixel shows the colour of the last command that marks it, or is as it was when none does |
| Commands.ClearForgets | lab5/gpu.c:208-213 | after a clear, the rest of a command sequence gives the same picture whatever was drawn before |
| Commands.RectangleFootprint | lab5/gpu.c:131-147 | a rectangle marks exactly the on-screen points that its loop counters pass through after wrapping, each with the colour modulo 256^bytes_per_pixel, and no point is passed twice |
| Commands.LineIsRectangle | lab5/gpu.c:119-147 | a line draws what a rectangle of height 1 draws, and a pixel what a rectangle of width and height 1 draws |
| Commands.PatternClosedForm | lab5/gpu.c:150-183 | the pattern covers exactly the points with x < n * w and y < n * h, all on screen, where w and h are `(x_res / n) % 256` and `(y_res / n) % 256` |
| Commands.PatternColors | lab5/gpu.c:155-175 | every point with nx * w <= x < (nx + 1) * w and ny * h <= y < (ny + 1) * h, for nx and ny below n, has the colour of tile (nx, ny) |
| Commands.PatternFillsGrid | lab5/gpu.c:150-183 | with at least n pixels each way, the pattern covers every point of its n by n grid of whole tiles if and only if both tile sizes fit a byte |
| Commands.PatternVanishes | lab5/gpu.c:150-183 | the pattern draws nothing at all if and only if x_res / n or y_res / n is a multiple of 256 |
| Commands.FewTilesDrawNothing | lab5/gpu.c:152-153 | the failing input: at 1024 by 768, one to four rectangles draw nothing |
| Commands.ImageClosedForm | lab5/gpu.c:185-201 | an on-screen point is marked exactly when it is less than width and height ahead of (x, y), and then shows that pixel of the image unchanged |
| Commands.ImageIsRowMajor | lab5/gpu.c:190-195 | that pixel is `pixels[dy * width + dx]` |
| Pictures.TileFits | lab5/gpu.c:152-159 | every tile ends on the screen: tile products neither wrap nor clip |
| Pictures.TileSpan | lab5/gpu.c:158-165 | a tile's wrapped span is the set of coordinates whose quotient by the tile size is the tile's number, so tiles are disjoint |
| Buffers.PixelsDisjoint | lab5/gpu.c:124-126 | distinct on-screen pixels occupy disjoint byte ranges |
| Buffers.PixelsTileBuffer | lab5/gpu.c:99-126 | every byte of the buffer lies in the range of exactly one on-screen pixel, the one its address divides into |
| Buffers.EncodeAfterDecode | lab5/gpu.c:124-126 | the picture determines every byte of the buffer |
| Buffers.DecodeAfterEncode | lab5/gpu.c:124-126 | every picture with colours that fit is the picture of its buffer |
| Buffers.EncodedBytes | lab5/gpu.c:124-126 | byte `(y * x_res + x) * bytes_per_pixel + k` of a picture's buffer is byte k of the colour of (x, y), least significant first |
| Buffers.BlackBuffer | lab5/gpu.c:208-213 | the picture is black exactly when all bytes are zero |
| CTypes.AheadIsWrapped | lab5/gpu.c:121-134 | `Ahead(c, x)` is `(uint16_t)(c - x)` |
| Arithmetic.TimesIsProduct | lab5/gpu.c:124-124 | `Times` is the product |
| Arithmetic.QuotientIsDivision | lab5/gpu.c:152-153 | `Quotient` is `/`, as in the tile sizes, and `Remainder` is `%`, as in the frame test at `lab5/lab5.c:320` |
| Bits.ShlIsProduct | lab5/gpu.c:170-173 | `Shl` is multiplication by a power of two |
| Bits.ShrIsQuotient | lab5/gpu.c:173-173 | `Shr`, with which stored fields are read back, is division by a power of two |
| Bits.LowIsRemainder | lab5/gpu.c:164-172 | `Low` is the remainder modulo a power of two |
| Bits.ReadAfterWrite | lab5/gpu.c:126 | the n bytes copied from a word read back as the word modulo 256^n |
| Colors.StoredIsRemainder | lab5/gpu.c:126 | a stored colour is the colour modulo 256^bytes_per_pixel |
| Bits.AndIsBitwise | lab5/gpu.c:170-172 | the model's `&` is bitwise conjunction |
| Bits.OrIsBitwise | lab5/gpu.c:173 | the model's `\|` is bitwise disjunction |
| Colors.ChannelCounts | lab5/gpu.c:170-172 | masking, adding with 32-bit wrap and reducing equals (first + k) mod 2^size for every field position, 0 included |
| Colors.ChannelStartsAtItsField | lab5/gpu.c:170-172 | a channel counts from its own field of `first` if and only if that field equals the low bits of `first` |
| Colors.ChannelIgnoresItsField | lab5/gpu.c:170-172 | the failing input: an 8-bit channel at bit 16 of 0x00FF0000 starts at 0, not at its field, 255 |
| Colors.IndexedTile | lab5/gpu.c:163-167 | in indexed modes tile (nx, ny) is stored as (first + (ny * n + nx) * step) mod 2^bits_per_pixel |
| Colors.DirectTile | lab5/gpu.c:169-175 | when the three fields are disjoint and fit the pixel, extracting them from the stored pixel gives the three channel counters |
| Colors.DirectTileBits | lab5/gpu.c:169-175 | for every layout, overlapping fields included, a bit of the stored pixel is set exactly when one of the three channel counters, each at its field position, sets it |
| Sprites.SignedSprite | lab5/gpu.c:185-201 | blitting at the uint16 encoding of a signed position draws exactly the on-screen part of the sprite at that position |
| Sprites.FaithfulExactly | lab5/gpu.c:119-201 | this holds at every signed position if and only if the screen sides are at most 32768 and the sprite sides at most 32769 |
| Frames.RenderFrame | lab5/lab5.c:320-324 | clear, blit and commit leave on the screen the sprite on black, whatever was drawn or shown before |
| Frames.FrameClosedForm | lab5/lab5.c:320-324 | pixel by pixel, a frame shows the image where it is less than width and height ahead of the position, modulo 2^16, and is black everywhere else |
| VideoMove.FramesOnTrack | lab5/lab5.c:165-202 | in every run the counter advances by exactly the timer interrupts t that the notifications up to and including the one with ESC_BREAKCODE carry, those with a keyboard bit included; there are (counter0 + t) / clocks_per_frame - counter0 / clocks_per_frame frames, and the k-th shows (xi + k, yi + k) mod 2^16 |
| VideoMove.CounterFollowsTimer | lab5/lab5.c:165-202 | the same count for every run from any state, and scan_code is the last byte stored up to the first ESC_BREAKCODE |
| VideoMove.FlagStays | lab5/lab5.c:178-180 | `kbd_ih_valid` is set by the first valid byte and never cleared |
| VideoMove.VideoTestMove | lab5/lab5.c:142-211 | the loop follows the machine, and at any moment the screen shows the last frame's pure rendering, or is untouched before the first |
| Controller.CooldownConserved | lab5/lab5.c:263-318 | over any stretch of any run, initial charge plus one cooldown per walking batch plus a tenth per running batch equals the ticks that counted down plus what is left; every other tick is a rest, one with nothing to count down and no movement key held; 0 <= elapsed <= cooldown |
| Controller.FullSpeedWhileHeld | lab5/lab5.c:263-318 | the exact speed: over any stretch with some movement key held throughout, the ticks are exactly the charges of the batches made, plus what was left to count down at its start, less what is left at its end |
| Controller.RunSplits | lab5/lab5.c:256-335 | a run continues from where its first part ended, so laws about runs from any state are laws about any stretch of any run |
| Controller.SpeedLimit | lab5/lab5.c:224-318 | from the start, cooldown + k * (cooldown / 10) - elapsed <= ticks for k movement batches, and the exact balance by speed |
| Controller.BatchesAreSpaced | lab5/lab5.c:224-318 | over any stretch of any run, k movement batches need at least (k - 1) * (cooldown / 10) ticks, and in fewer than 3 * clocks_per_frame ticks there is at most one |
| Controller.FramesAreSmooth | lab5/lab5.c:256-335 | in every run frames up to three apart differ by -10, 0 or +10 on each axis, modulo 2^16: at most one batch falls into any three frame gaps in a row |
| Controller.FramesPerTick | lab5/lab5.c:226-325 | over any stretch of any run, the counter advances by exactly the timer interrupts t that the notifications up to ESC_BREAKCODE carry, those with a keyboard bit included, and (counter0 + t) / (frequency / 30) - counter0 / (frequency / 30) frames are drawn |
| Controller.RoundsObey | lab5/lab5.c:256-325 | in every round of every run, a batch is made and charged exactly when elapsed is 0 and W, A, S or D is down, moving each axis by its own keys; and exactly the timer bit counts, counts down, and at every (frequency / 30)-th count draws the frame |
| Controller.KeysFollowHistory | lab5/lab5.c:293-313 | in every run each key, shift included, is pressed exactly when its last make or break code among the bytes handled was a make, although old bytes are handled again |
| Controller.HandledIsStored | lab5/lab5.c:256-313 | with `kbd_ih_valid` initially clear, the bytes handled are those stored up to the first ESC_BREAKCODE, from the first valid one on, invalid ones among them included |
| Controller.PositionFollowsSteps | lab5/lab5.c:263-284 | x is its start plus ten times right minus left steps, mod 2^16, and y likewise with down and up |
| Controller.FramesFollowSteps | lab5/lab5.c:263-323 | every frame of every run was drawn at the start plus ten times the net steps made by its tick, mod 2^16 |
| Controller.FramesShowSignedPosition | lab5/lab5.c:229-323 | every frame of every run shows the sprite clipped at its signed position of that tick, also past the zero edges, as long as that position fits 16 bits; the last one is what the screen shows |
| Controller.VideoTestController | lab5/lab5.c:213-343 | the loop follows the machine from any driver state, the screen shows the last frame's pure rendering, and its frames are smooth |
| Devices.Drivers.KbcIh | proj/src/drivers/keyboard.c:35-50 | a byte that is read is stored, and flagged when its status shows no error; otherwise scan_code stays, and the flag is never cleared |
| Devices.Drivers.TimerIntHandler | proj/src/drivers/timer.c:45-47 | the tick counter advances by one |
| ScanCodes.DecoderIsFaithful | lab3/lab3.c:71-87 | for every byte stream, the printed bytes and the pending prefix are the stream with runs of the prefix byte collapsed, and every token is a key with the right make flag |
| ScanCodes.DecoderIsTheOnlyReading | lab3/lab3.c:71-87 | this equation has no other solution in keys and pending prefix |
| ScanCodes.RoundTrip | lab3/lab3.c:71-87 | the bytes of any list of keys decode to exactly that list, with nothing pending |
| ScanCodes.PendingAfterEsc | lab3/lab3.c:51-87 | a loop that ends on a valid ESC_BREAKCODE has fed it to the decoder and leaves no prefix pending, even if one was before; an invalid one ends the loop with the decoder as it was |
| ScanCodes.UpToEscCutsAtFirst | lab3/lab3.c:51-99 | the part of what arrives that a loop takes in is all of it, or ends with its first ESC_BREAKCODE, valid or not |
| KeyboardLoops.KbdTestScan | lab3/lab3.c:41-104 | under every sequence of notifications the interrupt loop follows its machine and prints the tokens of the valid bytes up to the first ESC_BREAKCODE, or nothing if scan_code starts as that |
| KeyboardLoops.KbdTestPoll | lab3/lab3.c:106-137 | the polling loop follows its machine and prints the tokens of the valid bytes up to the first ESC_BREAKCODE, unless scan_code starts as that and the first poll stores no byte |
| KeyboardLoops.TypedKeysArePrinted | lab3/lab3.c:51-132 | typing keys without an ESC_BREAKCODE byte makes the runs of both loops print exactly those keys |
| KeyboardLoops.LoopsAgreeExactly | lab3/lab3.c:51-132 | any two runs of the two loops that are given the same bytes print the same, if and only if scan_code does not start as ESC_BREAKCODE |
| TimedScan.ElapsedIsExact | lab3/lab3.c:154-208 | in every run elapsed is counter / freq - c0 / freq, c0 being the counter at the last keyboard notification, and never exceeds n |
| TimedScan.TimeoutWindow | lab3/lab3.c:154-208 | the loop is still waiting while fewer than n * freq ticks were counted since then, and times out with a count in ((n - 1) * freq, n * freq], on a tick that ends a period |
| TimedScan.TicksAccounted | lab3/lab3.c:167-197 | the exact loss: the counter advances by the timer interrupts of the notifications taken in, less exactly those that come with a valid byte that is 0xE0 or directly follows 0xE0 among the valid bytes |
| TimedScan.LossIsBounded | lab3/lab3.c:173-188 | so a byte printed on its own loses no tick, and any other valid byte at most one |
| TimedScan.TimedPrintsPrefix | lab3/lab3.c:154-208 | under every interleaving with the timer the loop prints a prefix of what the interrupt loop prints on the same run, and all of it unless it timed out |
| TimedScan.KbdTestTimedScan | lab3/lab3.c:139-215 | the loop follows the machine about which this is proved |

## Left out

- Mode setting, mapping, `malloc`, `sleep`, subscriptions and their failure returns: foreign calls. The drawing functions always return 0, so their status codes are not modelled.
- XPM decoding: `xpm_load` is taken to yield `width * height` bytes; a sprite is that array.
- `video_test_init`, `video_test_rectangle`, `video_test_pattern`, `video_test_xpm` and `aux_wait_esc`: one drawing call each. As the code stands the rectangle test never commits, so by the frame of `DrawRectangle` the screen does not change.
- The parameters `xf`, `yf` and `speed` of `video_test_move` and the variable `count` of `kbd_test_timed_scan`: the code never uses them.
- Lab 2, lab 4 and the project's game: lab 2's divider is the easy case of the timed loop's, the others rest on drivers and modules that are not part of this model.
- Real time, `size_t` wrap of the tick counter, and notifications lost by the kernel.
- KeyboardLoops.KbdTestScan: the value of `kbd_ih_valid` after the loop is not stated; each lab 3 loop clears it before it reads it. The same holds for `KbdTestPoll` and `KbdTestTimedScan`.
- Liveness: nothing is said about notifications that never arrive.
