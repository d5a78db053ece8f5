# SpaceInvaders on the RP2040 — a Dafny model

This project models the game logic and the hardware drivers of a small Space
Invaders game for the Raspberry Pi Pico (RP2040) and proves properties of that
model in Dafny 4.11.

The game part has four pieces:

- the player and the player's bullet (`src/game/game.c`);
- the enemy formation with its falling bullets (`src/game/enemies.c`);
- the MENU / PLAYING / GAME OVER state (`src/game/gamestate.c`);
- the main loop that turns joystick and button input into a move and a shot
  (`src/demos/Abgabe_09.c`).

The driver part has five pieces:

- the ST7735 TFT display (`src/hal/displays/st7735.c`);
- the WS2812 LED strip (`src/hal/leds/ws2812.c`);
- the analog joystick (`src/hal/controls/joystick.c`);
- the MPU6050 motion sensor's post-processing (`src/hal/sensors/mpu6050.c`);
- the I2C bus scan (`src/demos/i2c_scan.c`).

The game code works by updating module statics in place, so the statics
become classes with mutable fields:

- `Game.Game` holds the player and the player's bullet.
- `GameState.StateStore` holds the current game state.
- `Enemies.Formation` holds the two fixed arrays of enemies and enemy bullets,
  the direction, the live counter and the two timers.
- `Joystick.Joystick` holds the calibration values.
- `Ws2812.Strip` holds the pixel buffer as an `array`.
- `St7735.Display` holds the size and the colour order.

Each state-changing method is proved against a pure specification function,
for example `MoveSpec`, `ShootSpec`, `Tick` or `FillRectEvents`. The lemmas
next to each function prove what the source promises about it.

Hardware output is modelled as data:

- The display driver appends to a sequence `out` of events. An
  event is a command byte, a data byte, a sleep or a change of the reset pin.
  "What the panel receives" is therefore a value the lemmas can talk about.
- `ws2812_show` returns the 32-bit words it would push to the PIO FIFO.
- The I2C scan returns the text it would print.

Hardware inputs are parameters of the model:

- ADC samples and pin levels;
- `i2c_read_blocking` results;
- `get_absolute_time` as `now`, with the timers' intervals as inputs;
- the values of `rand()`, as a sequence `draws`;
- whether `malloc`/`calloc` succeeds, as an `allocOk` flag.

Exact arithmetic replaces C's where C's does not matter. Where the source's
integer width matters it is written out:

- the `uint8_t` window coordinates;
- the 16-bit big-endian sensor words;
- the `uint16_t` offset in `ws2812_get_pixel_color`.

Files, one module each: `util.dfy`, `gamestate.dfy`, `game.dfy`,
`abgabe09.dfy`, `enemies.dfy`, `joystick.dfy`, `mpu6050.dfy`, `ws2812.dfy`,
`i2c_scan.dfy`, `st7735_script.dfy` (the init-table format and its
interpreter) and `st7735.dfy`.

## Model

| member | source | states |
|---|---|---|
| `Util.FirstIndex` | src/game/enemies.c:121-130 | The index a first-match loop stops at: it satisfies the test, no earlier element does, and there is none exactly when no element satisfies it (the search of both collision loops) |
| `GameState.StateStore.constructor` | src/game/gamestate.c:4 | The game starts in MENU |
| `GameState.StateStore.SetState` | src/game/gamestate.c:6-8 | Any state can be set unconditionally and becomes the current one |
| `GameState.StateStore.GetState` | src/game/gamestate.c:25-27 | Reading the state returns the current state and changes nothing |
| `Game.Tick` | src/game/game.c:33-50 | A player step moves by 4·dir clamped to [0, 118] (exact when inside); a shot starts only with fire and no bullet in flight, at x+5, and has already climbed 5 pixels to 145; a flying bullet climbs 5 per tick and becomes -1 when it would leave the top; with no shot the bullet's x is kept; the bullet invariant (-1, or a multiple of 5 in 0..145) is preserved |
| `Game.Game.constructor` | src/game/game.c:10-12 | The player starts at x = 60 with no bullet (-1, -1), and the bullet invariant holds |
| `Game.Game.Init` | src/game/game.c:21 | `game_init` puts the game state into MENU |
| `Game.Game.Update` | src/game/game.c:28-50 | Outside PLAYING nothing changes; while PLAYING the player and the bullet become `Tick` of their old values; the bullet invariant is kept |
| `Abgabe09.StickMove` | src/demos/Abgabe_09.c:44-45 | The stick gives +1 exactly below -0.5, -1 exactly above 0.5, and 0 in between |
| `Abgabe09.ResolveInput` | src/demos/Abgabe_09.c:41-49 | The right button (active low) forces +1 over everything; otherwise the left button forces -1; otherwise the stick decides; fire is 1 exactly when the top button is pressed |
| `Abgabe09.Iteration` | src/demos/Abgabe_09.c:39-55 | One loop pass: the move and the fire as `ResolveInput` gives them; MENU turns into PLAYING exactly when the move is non-zero, any other state is kept; then the game takes one `Tick` step if PLAYING and stays put otherwise |
| `Enemies.AliveCountSameFlags` | src/game/enemies.c:65-77 | Moving enemies without touching alive flags leaves the number alive unchanged |
| `Enemies.AliveCountKill` | src/game/enemies.c:125-126 | Killing one alive slot lowers the number alive by exactly one, which is why `active_enemies--` keeps the counter right |
| `Enemies.AliveCountExact` | src/game/enemies.c:35-48 | A pool whose first n slots are alive and the rest dead has exactly n alive |
| `Enemies.AliveCountZero` | src/game/enemies.c:147-149 | No enemy is alive exactly when the number alive is zero |
| `Enemies.GridSlot` | src/game/enemies.c:40-48 | Slot r·cols+c lies inside the grid and holds the alive enemy at (10+14c, 20+12r) |
| `Enemies.GridDistinct` | src/game/enemies.c:40-48 | No two grid slots share a position |
| `Enemies.InitSpecCorrect` | src/game/enemies.c:34-56 | After `enemies_init_dynamic(rows, cols)` exactly the first rows·cols slots are alive, the enemy of row r and column c is alive in slot r·cols + c at x = 10 + 14·c, y = 20 + 12·r, the counter equals rows·cols, every bullet is inactive, the direction is +1, both timers are `now`, and the formation invariant holds |
| `Enemies.MoveSpecCorrect` | src/game/enemies.c:62-80 | Off-schedule nothing changes. On a due tick every alive enemy moves by 2·dir and the move timer is `now`. If a moved enemy touches an edge (x ≤ 0 or x ≥ 118), the direction flips and every alive enemy drops by 4. Dead enemies, alive flags, bullets and the shot timer are untouched. The invariant is kept |
| `Enemies.ShootSpecCorrect` | src/game/enemies.c:83-99 | A shot happens exactly when the shot timer is due, a bullet slot is free and one of the 10 draws names an alive enemy. It uses the lowest free slot and the first alive enemy drawn, and spawns at that enemy's position plus (4, 6). It resets the shot timer. Without a shot nothing changes. Enemies never change, and at most 10 draws are used |
| `Enemies.AdvanceCorrect` | src/game/enemies.c:102-107 | Every active bullet falls by 4 and turns inactive exactly when its new y exceeds 160; inactive bullets are untouched |
| `Enemies.UpdateSpecCorrect` | src/game/enemies.c:58-108 | `enemies_update` keeps the invariant and the counter, never changes an alive flag, and its bullets are those of the shot when one is fired (the early return) and the fallen ones otherwise |
| `Enemies.BulletHitSpecCorrect` | src/game/enemies.c:120-131 | The first alive enemy whose closed box [x, x+10]×[y, y+6] holds the point dies, the counter drops by one, and the caller's bullet becomes inactive. On a miss nothing changes. Bullets, the direction and the timers are never touched, and the invariant is kept |
| `Enemies.BulletHitTwice` | src/game/enemies.c:120-131 | Once the only enemy at a point has been hit, a second hit at the same point finds nothing and changes nothing |
| `Enemies.PlayerHitSpecCorrect` | src/game/enemies.c:133-145 | A hit is reported exactly when some active bullet strictly overlaps the player's box; only the first such bullet is deactivated; a miss changes nothing; enemies and the counter are untouched |
| `Enemies.Formation.constructor` | src/game/enemies.c:22-28 | The zero-initialised statics: every enemy and bullet is (0, 0, dead/inactive), the direction is 1, the counter and the timers are 0 |
| `Enemies.Formation.KillAll` | src/game/enemies.c:37-38 | Every slot is marked dead and its position is kept |
| `Enemies.Formation.FillGrid` | src/game/enemies.c:40-48 | The nested loops put the grid enemy into each of the first rows·cols slots and leave the others as they were |
| `Enemies.Formation.FillRow` | src/game/enemies.c:42-47 | The inner loop fills row r's cols slots starting at index r·cols and advances the index by cols |
| `Enemies.Formation.DeactivateBullets` | src/game/enemies.c:50-51 | Every bullet becomes inactive and keeps its position |
| `Enemies.Formation.InitDynamic` | src/game/enemies.c:34-56 | The state after the call is `InitSpec` of the state before it |
| `Enemies.Formation.Init` | src/game/enemies.c:30-32 | `enemies_init` is the dynamic init with one row of three |
| `Enemies.Formation.March` | src/game/enemies.c:62-80 | The movement phase yields `MoveSpec` of the state before it |
| `Enemies.Formation.MarchAll` | src/game/enemies.c:65-70 | Every alive enemy moves by dx; the edge flag is set exactly when a moved alive enemy is at an edge |
| `Enemies.Formation.DropAll` | src/game/enemies.c:74-76 | Every alive enemy drops by dy |
| `Enemies.Formation.Shoot` | src/game/enemies.c:83-99 | The shooting phase yields `ShootSpec`: the new state, whether a shot was fired, and how many draws were used |
| `Enemies.Formation.Fire` | src/game/enemies.c:88-95 | Spawning from the first free slot is the firing case of `ShootSpec` |
| `Enemies.Formation.MoveBullets` | src/game/enemies.c:102-107 | The bullet phase replaces the bullets by `Advance` of the old ones and changes nothing else |
| `Enemies.Formation.Update` | src/game/enemies.c:58-108 | One `enemies_update` yields `UpdateSpec` of the state before it |
| `Enemies.Formation.CheckBulletHits` | src/game/enemies.c:120-131 | The state and the new `*active` are `BulletHitSpec` of the old state |
| `Enemies.Formation.Kill` | src/game/enemies.c:125-128 | The hit branch is the hit case of `BulletHitSpec` |
| `Enemies.Formation.CheckPlayerHit` | src/game/enemies.c:133-145 | The state and the result are `PlayerHitSpec` of the old state |
| `Enemies.Formation.AllDead` | src/game/enemies.c:147-149 | The result is true exactly when the counter is at most zero, and (through the invariant) exactly when no slot is alive |
| `Joystick.SumBound` | src/hal/controls/joystick.c:52-62 | The sum of 12-bit samples lies between 0 and count·4095 (the 32-bit sums cannot overflow) |
| `Joystick.SeqMin` | src/hal/controls/joystick.c:100-101 | The minimum is below every sample and is one of them |
| `Joystick.SeqMax` | src/hal/controls/joystick.c:102-103 | The maximum is above every sample and is one of them |
| `Joystick.RunningWhole` | src/hal/controls/joystick.c:86-111 | The running minimum and maximum over all samples are the sequence's minimum and maximum, and min ≤ max |
| `Joystick.Track` | src/hal/controls/joystick.c:95-108 | One sampling pass extends the running minimum and maximum by one sample |
| `Joystick.Normalize` | src/hal/controls/joystick.c:152-199 | The normalised value is in [-1, 1]; it is 0 inside the ±1500 dead zone and when the relevant range is not positive (no division by zero); otherwise it is rel/range clipped to [-1, 1] |
| `Joystick.Joystick.constructor` | src/hal/controls/joystick.c:23-29 | All calibration statics start at 0 |
| `Joystick.Joystick.InitSimpleCenter` | src/hal/controls/joystick.c:46-76 | The centre is the mean of 100 samples shifted left by 4; min and max are 0 and 4095·16; the centre lies between them |
| `Joystick.Joystick.InitFullRange` | src/hal/controls/joystick.c:79-126 | Min and max are the smallest and largest samples times 16 (4095·16 and 0 when there are no samples), and the centre is their mean; with samples, the centre lies between min and max |
| `Joystick.Joystick.Read` | src/hal/controls/joystick.c:128-206 | Both axes are in [-1, 1]; an axis inside the dead zone around its centre reads 0; the button is pressed exactly when the pin is low |
| `Mpu6050.BeInt16` | src/hal/sensors/mpu6050.c:40-45 | `(int16_t)((hi << 8) \| lo)` is in [-32768, 32767], agrees with hi·256+lo modulo 2^16, and is negative exactly when hi ≥ 0x80 |
| `Mpu6050.BeInt16OfBytes` | src/hal/sensors/mpu6050.c:40-45 | Splitting a 16-bit value into high and low byte and decoding gives it back |
| `Mpu6050.BytesOfBeInt16` | src/hal/sensors/mpu6050.c:40-45 | Decoding two bytes and splitting the value gives the bytes back |
| `Mpu6050.DecodeBurst` | src/hal/sensors/mpu6050.c:34-46 | The six words of a 14-byte burst are all in int16 range |
| `Mpu6050.EncodeBurst` | src/hal/sensors/mpu6050.c:34-46 | A sample re-encodes to 14 bytes with the temperature bytes at 6 and 7 |
| `Mpu6050.DecodeEncode` | src/hal/sensors/mpu6050.c:40-45 | Decoding an encoded sample gives the sample back |
| `Mpu6050.EncodeDecode` | src/hal/sensors/mpu6050.c:40-45 | Encoding a decoded burst with its own temperature bytes gives the burst back |
| `Mpu6050.DecodeIgnoresTemperature` | src/hal/sensors/mpu6050.c:40-45 | Bytes 6 and 7 (temperature) do not affect the decoded sample |
| `Mpu6050.Code` | include/hal/sensors/mpu6050.h:6-13 | The enum codes are 0..4 with NEUTRAL = 0 |
| `Mpu6050.CodeInjective` | include/hal/sensors/mpu6050.h:6-13 | Distinct commands have distinct codes |
| `Mpu6050.CommandToString` | src/hal/sensors/mpu6050.c:226-243 | "ERROR" comes back exactly for values outside 0..4 |
| `Mpu6050.CommandNamesDistinct` | src/hal/sensors/mpu6050.c:226-243 | Distinct commands have distinct names |
| `Mpu6050.Abs` | src/hal/sensors/mpu6050.c:185-186 | `fabs`: non-negative and equal to v or -v |
| `Mpu6050.Unwrap` | src/hal/sensors/mpu6050.c:174-175 | A roll above 180 is reduced by 360, anything else is kept; any roll up to 540 comes out at most 180 |
| `Mpu6050.Deaden` | src/hal/sensors/mpu6050.c:178-182 | A value becomes 0 exactly when it is strictly inside (-0.1, 0.1); otherwise it is kept |
| `Mpu6050.Classify` | src/hal/sensors/mpu6050.c:192-223 | At most one axis gets an action. Roll acts exactly when \|roll\| ≥ 10 and \|roll\| ≥ \|pitch\|: UP when positive, DOWN otherwise. Pitch acts exactly when \|pitch\| ≥ 10 and \|pitch\| > \|roll\|: RIGHT when negative, LEFT otherwise |
| `Mpu6050.Read` | src/hal/sensors/mpu6050.c:162-223 | The output roll is tare-relative, scaled by 1.7, unwrapped and deadened. The output pitch is tare-relative, inverted and deadened. The actions are `Classify` of the two, so at most one of them is not NEUTRAL |
| `Mpu6050.FinalCommand` | src/hal/sensors/mpu6050.c:248-259 | The printed command is the roll action's name if it has one, else the pitch action's name, else "NEUTRAL" |
| `Mpu6050.FinalCommandOfClassified` | src/hal/sensors/mpu6050.c:196-259 | For a classified state, the final command names the single non-neutral action, or is "NEUTRAL" when there is none |
| `Ws2812.UnpackPack` | src/hal/leds/ws2812.c:96-98 | Packing three bytes leaves the top byte zero, and each byte can be read back from its position |
| `Ws2812.PackBytes` | src/hal/leds/ws2812.c:71-73 | Repacking the three low bytes of a colour gives its low 24 bits |
| `Ws2812.WritePixel` | src/hal/leds/ws2812.c:57-63 | For an LED on the strip, its three bytes take the new values and all other bytes are kept; off the strip nothing changes |
| `Ws2812.ColorAt` | src/hal/leds/ws2812.c:134-146 | The colour read back is 0x00RRGGBB from bytes 3·led, 3·led+1 and 3·led+2, and 0 off the strip |
| `Ws2812.ColorAtAsWrittenShortStrip` | src/hal/leds/ws2812.c:138 | The `uint16_t` offset is harmless on strips of at most 21845 LEDs |
| `Ws2812.ColorAtAsWrittenWraps` | src/hal/leds/ws2812.c:138 | On a strip of 21847 LEDs, reading LED 21846 through the wrapped offset gives a different colour than the LED holds |
| `Ws2812.PackedRoundTrip` | src/hal/leds/ws2812.c:66-75 | A colour written with the packed setter reads back as its low 24 bits |
| `Ws2812.RgbAsWrittenReadBack` | src/hal/leds/ws2812.c:55-64 | As written, the RGB setter reads back with red and green exchanged, which differs from the colour set whenever red ≠ green |
| `Ws2812.RgbRoundTrip` | src/hal/leds/ws2812.c:108-117 | Storing r, g, b in buffer order (as `fill` and the packed setter do) reads back as Pack(r, g, b) |
| `Ws2812.WritePixelFrame` | src/hal/leds/ws2812.c:55-75 | Writing one LED never changes the colour of another |
| `Ws2812.WordLayout` | src/hal/leds/ws2812.c:86-106 | The FIFO word is 0xGGRRBB00: buffer byte 1 in the top byte, byte 0 next, byte 2 after, and zero in the lowest byte |
| `Ws2812.FilledWord` | src/hal/leds/ws2812.c:86-117 | An LED filled with (r, g, b) goes out as green, red, blue, the order the PIO program expects |
| `Ws2812.Strip.Init` | src/hal/leds/ws2812.c:9-15 | The strip has `num` LEDs when the allocation succeeds and 0 otherwise, every byte is 0, and the pin, PIO and state machine are recorded |
| `Ws2812.Strip.Alloc` | src/hal/leds/ws2812.c:4-7 | `calloc` gives a zeroed buffer of `num` LEDs, or none and length 0 |
| `Ws2812.Strip.UpdateLength` | src/hal/leds/ws2812.c:119-127 | The old buffer is dropped and a fresh zeroed one of the new length (or 0 on failure) replaces it; the wiring is kept |
| `Ws2812.Strip.Deinit` | src/hal/leds/ws2812.c:37-45 | No buffer and no LEDs remain; the wiring is kept |
| `Ws2812.Strip.SetPixelColorRgbAsWritten` | src/hal/leds/ws2812.c:55-64 | As written: stores green, red, blue, so the LED then reads back as Pack(green, red, blue) |
| `Ws2812.Strip.SetPixelColorRgb` | src/hal/leds/ws2812.c:55-64 | Corrected: stores red, green, blue, so the LED reads back as Pack(red, green, blue) and goes out in GRB order |
| `Ws2812.Strip.SetPixelColorPacked` | src/hal/leds/ws2812.c:66-75 | The LED reads back as the colour's low 24 bits; out of range nothing changes |
| `Ws2812.Strip.Clear` | src/hal/leds/ws2812.c:77-84 | Every byte becomes 0, so every LED reads back 0 |
| `Ws2812.Strip.Fill` | src/hal/leds/ws2812.c:108-117 | Every LED reads back as Pack(red, green, blue) |
| `Ws2812.Strip.GetPixelColor` | src/hal/leds/ws2812.c:134-146 | Corrected read-back: `ColorAt` of the buffer, 0 beyond the strip |
| `Ws2812.Strip.GetPixelColorAsWritten` | src/hal/leds/ws2812.c:134-146 | The read-back as written, with the 16-bit offset |
| `Ws2812.Strip.Show` | src/hal/leds/ws2812.c:86-106 | One FIFO word per LED, in order, each laid out as `Word` |
| `I2cScan.ReservedRange` | src/demos/i2c_scan.c:11-14 | Among 7-bit addresses the reserved ones are exactly 0..7 and 0x78..0x7F |
| `I2cScan.HexDigit` | src/demos/i2c_scan.c:38 | A digit prints as '0'..'9' or as lower-case 'a'..'f' |
| `I2cScan.Hex2` | src/demos/i2c_scan.c:38 | `%02x` is two characters, the high and the low hex digit |
| `I2cScan.Label` | src/demos/i2c_scan.c:36-39 | A row label is printed exactly at multiples of 16 |
| `I2cScan.RowLabel` | src/demos/i2c_scan.c:36-39 | The eight rows are labelled "00 " to "70 " |
| `I2cScan.Mark` | src/demos/i2c_scan.c:44-52 | "@" exactly for an unreserved address whose read returned at least 0, "." otherwise |
| `I2cScan.Separator` | src/demos/i2c_scan.c:53 | A newline exactly after the sixteenth column, else two spaces |
| `I2cScan.CellShape` | src/demos/i2c_scan.c:36-53 | A cell ends in a newline exactly at the end of a row, and a reserved address prints "." whatever the bus would say |
| `I2cScan.ProbedBelowMembers` | src/demos/i2c_scan.c:34-50 | The addresses read from are exactly the unreserved 7-bit addresses |
| `I2cScan.ProbedBelowAscending` | src/demos/i2c_scan.c:34 | They are read in strictly ascending order |
| `I2cScan.ScanAddress` | src/demos/i2c_scan.c:36-53 | One loop pass prints the cell of its address and reads the bus exactly when the address is not reserved |
| `I2cScan.Scan` | src/demos/i2c_scan.c:32-56 | The output is the header, one cell per address 0..127 in order, then "Scan finished."; the bus is read at exactly the unreserved addresses, in ascending order |
| `St7735Script.DataEvents` | src/hal/displays/st7735.c:135-141 | A buffer goes out as one data byte per byte, in order |
| `St7735Script.CountByte` | src/hal/displays/st7735.c:290-291 | The count byte's low seven bits are the argument count and bit 7 announces a delay |
| `St7735Script.DelayMs` | src/hal/displays/st7735.c:275-277 | A delay byte of 255 means 500 ms, any other value that many milliseconds |
| `St7735Script.RunGroup` | src/hal/displays/st7735.c:264-301 | Interpreting one encoded group sends its command, its arguments as data and its sleep, and returns to the start state |
| `St7735Script.RunEncode` | src/hal/displays/st7735.c:264-301 | Interpreting an encoded list of groups gives exactly the events of the groups, in order |
| `St7735Script.RunEncoded` | src/hal/displays/st7735.c:264-301 | A script that encodes a list of groups runs to the groups' events |
| `St7735Script.InterpretByte` | src/hal/displays/st7735.c:270-300 | One pass of the interpreter loop over its C locals is one `Step` of the interpreter state |
| `St7735Script.Interpret` | src/hal/displays/st7735.c:264-301 | The loop over the table sends `RunFrom(Start, script)` |
| `St7735Script.InitTableEncodes` | src/hal/displays/st7735.c:207-261 | The 21 rows of `init_cmds` are the encoding of 21 well-formed groups |
| `St7735Script.InitScriptEncodes` | src/hal/displays/st7735.c:207-301 | Running `init_cmds` sends exactly the commands, arguments and sleeps of its 21 groups |
| `St7735.Rgb565Fields` | src/hal/displays/st7735.c:474-477 | `st7735_rgb` puts r>>3 in bits 15-11, g>>2 in bits 10-5 and b>>3 in bits 4-0 |
| `St7735.Rgb565Kept` | src/hal/displays/st7735.c:474-477 | The colour depends only on the kept bits |
| `St7735.Rgb565Equal` | src/hal/displays/st7735.c:474-477 | Two colours pack alike exactly when they agree in the bits kept |
| `St7735.HiLo` | src/hal/displays/st7735.c:316 | The high byte and the low byte put together give the colour back |
| `St7735.Pixels` | src/hal/displays/st7735.c:347-351 | n pixels take 2n bytes |
| `St7735.CoordinateByte` | src/hal/displays/st7735.c:144-159 | The byte sent for a coordinate is coordinate plus offset modulo 256, and exactly that sum when it fits in a byte |
| `St7735.RectWindowShape` | src/hal/displays/st7735.c:144-159 | A window is CASET, 0, x+offset, 0, x+w-1+offset, RASET, 0, y+offset, 0, y+h-1+offset, RAMWR (byte values modulo 256) |
| `St7735.Clip` | src/hal/displays/st7735.c:326-333 | The clipped length never reaches past the screen edge and never exceeds the length asked for. It equals the length asked for when that fits; otherwise it ends exactly at the edge |
| `St7735.FontSize` | src/hal/displays/st7735.c:74-114 | `font5x7` has 480 bytes, five per character 0x20..0x7F |
| `St7735.GlyphIndex` | src/hal/displays/st7735.c:393-402 | Characters 0x20..0x7F index their own glyph, all others the space |
| `St7735.ShiftBit` | src/hal/displays/st7735.c:414 | `(b >> j) & 1` tests exactly bit j |
| `St7735.ImageBytesAt` | src/hal/displays/st7735.c:409-429 | Pixel (i, j) of a glyph occupies bytes 12j+2i and 12j+2i+1, high byte first, in the foreground colour exactly when bit j of column i is set |
| `St7735.CharImagePixel` | src/hal/displays/st7735.c:398-429 | In the 96-byte character image pixel (i, j) holds the foreground colour exactly when its font bit is set, and the sixth column is always background |
| `St7735.InvalidCharIsSpace` | src/hal/displays/st7735.c:393-396 | A character outside the font draws exactly as a space |
| `St7735.Rasterize` | src/hal/displays/st7735.c:398-429 | The glyph and pixel loops build exactly the character image |
| `St7735.PutPixel` | src/hal/displays/st7735.c:414-427 | One pass of the pixel loop writes the two bytes of pixel (i, j) and keeps the bytes written before |
| `St7735.Cropped` | src/hal/displays/st7735.c:370-388 | The visible part of a buffer clipped to cw columns and `rows` rows has 2·cw·rows bytes |
| `St7735.StrLen` | src/hal/displays/st7735.c:436 | The string ends at its first NUL: no NUL before it, and a NUL at it unless the sequence ends first |
| `St7735.BeginSends` | src/hal/displays/st7735.c:202-306 | `st7735_begin` sends the reset, then exactly the events of the 21 init groups, then MADCTL with 0xC0 and the colour order |
| `St7735.PixelSends` | src/hal/displays/st7735.c:308-318 | A pixel off screen sends nothing. One on screen sends its 1×1 window and its two colour bytes, the same as a 1×1 `fill_rect` |
| `St7735.BufferClipped` | src/hal/displays/st7735.c:370-388 | A buffer whose corner is on screen is drawn through its clipped size, which lies in [0, w] × [0, h] |
| `St7735.PixelsJoin` | src/hal/displays/st7735.c:347-359 | m pixels then n pixels are m+n pixels |
| `St7735.RepeatPixels` | src/hal/displays/st7735.c:347-359 | h lines of w pixels are w·h pixels |
| `St7735.FillRectSends` | src/hal/displays/st7735.c:320-363 | A rectangle whose corner is past the right or bottom edge sends nothing, whatever the allocation does. Otherwise it sends its clipped window and then, if the allocation succeeds, exactly cw·ch pixels of the colour. Only the window goes out when w < 0 |
| `St7735.FillScreenSends` | src/hal/displays/st7735.c:365-368 | Filling the screen sends the full-screen window and width·height pixels of the colour |
| `St7735.CroppedAt` | src/hal/displays/st7735.c:370-388 | Byte k of visible row j is byte k of row j of the buffer (stride 2w) |
| `St7735.CroppedFull` | src/hal/displays/st7735.c:370-388 | With nothing cut off, the visible rows are the buffer's first 2·w·rows bytes |
| `St7735.BufferUnclipped` | src/hal/displays/st7735.c:370-388 | A buffer that fits on screen is sent whole after its window, and the corrected and the as-written versions agree |
| `St7735.BufferPixel` | src/hal/displays/st7735.c:370-388 | With corrected clipping, after the 11 window events, data byte 2·cw·j+k is byte 2·w·j+k of the buffer, so every visible pixel keeps its place |
| `St7735.ClippedBufferAt` | src/hal/displays/st7735.c:386-387 | The same placement for a buffer already clipped |
| `St7735.BufferAsWrittenShears` | src/hal/displays/st7735.c:377-387 | As written, a 6-pixel-wide image drawn at x = 125 on the 128-pixel screen cuts the width to 3 pixels, and the second visible row starts with buffer byte 6 (the fourth pixel of row 0) instead of byte 12 (the first pixel of row 1); the corrected version starts it with byte 12 |
| `St7735.CharOnScreen` | src/hal/displays/st7735.c:390-432 | A character that fits on screen sends its 6×8 window and then the whole character image |
| `St7735.LayoutSplit` | src/hal/displays/st7735.c:434-442 | Drawing s then t from x is drawing s + t, with t starting 6·\|s\| further right |
| `St7735.LayoutSnoc` | src/hal/displays/st7735.c:436-441 | One more character is drawn 6·\|s\| to the right of x |
| `St7735.LayoutAt` | src/hal/displays/st7735.c:434-442 | Character k of a string is drawn at x+6k, after the characters before it and before those after it |
| `St7735.CharDrawEvents` | src/hal/displays/st7735.c:438 | Each character of a string is drawn by `st7735_draw_char` |
| `St7735.RotationBits` | src/hal/displays/st7735.c:444-472 | The MV bit is set exactly for the rotations whose width is 160. The colour-order bit is always kept. Rotations m and m+2 differ by MX and MY and have the same size |
| `St7735.RotationsDistinct` | src/hal/displays/st7735.c:444-472 | Two rotation arguments write the same MADCTL byte exactly when they agree modulo 4 |
| `St7735.Display.Init` | src/hal/displays/st7735.c:161-192 | The panel starts in portrait 128×160 with the given offset and colour order, and nothing has been sent |
| `St7735.Display.WriteCmd` | src/hal/displays/st7735.c:117-123 | One command byte is sent |
| `St7735.Display.WriteData` | src/hal/displays/st7735.c:126-132 | One data byte is sent |
| `St7735.Display.WriteDataBuffer` | src/hal/displays/st7735.c:135-141 | The buffer is sent as data bytes, in order |
| `St7735.Display.SetAddrWindow` | src/hal/displays/st7735.c:144-159 | The window's eleven events are sent |
| `St7735.Display.WriteCoordinates` | src/hal/displays/st7735.c:147-156 | A coordinate pair goes out as 0, start, 0, end |
| `St7735.Display.Reset` | src/hal/displays/st7735.c:194-200 | The reset pin goes low for 50 ms, then high for 50 ms |
| `St7735.Display.Begin` | src/hal/displays/st7735.c:202-306 | What is sent is `BeginEvents` over `init_cmds` (described by `BeginSends`) |
| `St7735.Display.RunInit` | src/hal/displays/st7735.c:204-305 | The body of `st7735_begin` over any table: reset, the interpreted table, MADCTL |
| `St7735.Display.DrawPixel` | src/hal/displays/st7735.c:308-318 | What is sent is `PixelEvents` |
| `St7735.Display.FillRect` | src/hal/displays/st7735.c:320-363 | What is sent is `FillRectEvents` |
| `St7735.Display.FillClipped` | src/hal/displays/st7735.c:335-362 | After clipping: the window, then (if allocated) the line buffer ch times |
| `St7735.Display.SendLines` | src/hal/displays/st7735.c:356-359 | The line buffer is sent n times |
| `St7735.Display.FillScreen` | src/hal/displays/st7735.c:365-368 | Filling the screen is filling the full-size rectangle at (0, 0); on a display in either orientation with the allocation succeeding, that is the full-screen window and 128·160 pixels of the colour |
| `St7735.Display.DrawBuffer` | src/hal/displays/st7735.c:370-388 | Corrected: what is sent is `BufferEvents`, each visible row taken from its place in the buffer |
| `St7735.Display.DrawClipped` | src/hal/displays/st7735.c:386-387 | After clipping: the window, then the visible rows |
| `St7735.Display.SendRows` | src/hal/displays/st7735.c:387 | The visible part of each row is sent, row by row |
| `St7735.Display.DrawChar` | src/hal/displays/st7735.c:390-432 | What is sent is `CharEvents` over `font5x7` |
| `St7735.Display.DrawGlyph` | src/hal/displays/st7735.c:390-432 | The same over any table laid out like `font5x7` |
| `St7735.Display.DrawString` | src/hal/displays/st7735.c:434-442 | The characters before the terminating NUL are drawn one after another, 6 pixels apart, starting at x |
| `St7735.Display.DrawText` | src/hal/displays/st7735.c:434-442 | The same over any table laid out like `font5x7` |
| `St7735.Display.DrawNext` | src/hal/displays/st7735.c:437-440 | One pass of the string loop appends character i, drawn at x+6i |
| `St7735.Display.SetRotation` | src/hal/displays/st7735.c:444-472 | MADCTL and the rotation's byte are sent, and the width and height swap for rotations 1 and 3 |

## Left out

- Enemies.Formation.InitDynamic: its precondition excludes negative `rows` or
  `cols` (and grids larger than the pool). The C accepts negative values and
  then sets `active_enemies` to rows·cols while no enemy is alive. The only
  call, `enemies_init(1, 3)`, meets the precondition.
- Pin, SPI, I2C, ADC and PIO set-up are left out: `gpio_*`, `spi_*`, `adc_init`,
  `i2c_init`, `joystick_hardware_init` and `ws2812_begin`. The chip-select and
  data/command toggling around each transfer is left out too. The display
  model records bytes as command or data events instead.
- `printf` output is not modelled, except where it is the function's result:
  the I2C scan text and the MPU6050 final command.
- `print_state`, `mpu6050_print_motion_state`'s `printf`, and the log line of
  `st7735_draw_buffer` are left out because they are console output only.
- `sleep_ms` is modelled only where it is part of the panel protocol (reset
  and init delays). The 50 ms pause of the main loop and the ADC sampling
  pauses are left out.
- `get_absolute_time` is left out; the current time is an input (`now`), and a
  timer is due when `now - last >= interval`.
- `rand()` is left out; its values are an input sequence of ten draws (`draws`).
  The model reports how many draws a call consumed.
- `malloc` and `calloc` are left out; whether they succeed is an input (`allocOk`).
  `free` has no counterpart.
- Integer overflow of the game's `int` state is not modelled, because the
  values stay small.
- The uint16 statics of the joystick are not modelled as uint16, because they
  never leave 0..65520.
- `enemies_draw` and the render part of `game_update` (lines 52 onward) are
  not part of this model. Neither are the display calls of `game_init`, nor
  the demos `display.c`, `leds.c`, `motion.c`, `joystick.c` and `dht11.c`,
  nor `main.c`.
- `src/game/game.c` never calls `enemies.c`. The two modules are modelled
  side by side and never combined.
- Nothing sets GAMEOVER. The state exists, and `SetState` could set it.
- `mpu6050_init`, `mpu6050_calibrate_gyro` and the filter part of
  `mpu6050_read` (lines 135-161) are left out: `atan2`, the complementary
  filter, the gyro integration and the timing. `Read` starts from the
  filtered angles and the tare values, which are parameters.
- Mpu6050.Read: floats are real numbers. So `SCALE_FACTOR` (1.7) and the
  0.1 and 10.0 limits are exact, and float rounding is not modelled.
- Joystick.Normalize: the `float` division is an exact real division.
- Joystick.Joystick.InitFullRange: the five-second sampling loop becomes a
  sequence of samples (its length is whatever the clock allows).
- `ws2812_init_auto_sm` is left out: claiming a free state machine is a call
  into the PIO driver. `ws2812_init` takes the state machine as a parameter.
- `ws2812_num_pixels` is left out: it only returns `numLeds`, a field of
  `Ws2812.Strip`.
- The `uint16_t` arguments of the WS2812 functions are `nat` below 65536.
  `led * 3` in the setters is computed in `int` and cannot wrap. The offset
  of the getter can wrap, and this is modelled (see Findings).
- St7735.Display.DrawBuffer: a negative `w` or `h`, or a buffer shorter than
  2·w·h bytes, is excluded by its precondition. In C these read outside the
  buffer.
- St7735.Display.FillRect: a negative clipped width makes `malloc(w * 2)` ask
  for an impossible size. The model treats that request as a failure, so
  only the window is sent.
- `char` is taken to be unsigned (`bv8`), as on the RP2040. Characters
  0x80..0xFF therefore draw as a space.
- Display.DrawGlyph, Display.DrawText and the font lemmas take any table laid
  out like `font5x7` as a parameter. `DrawChar` and `DrawString` use the
  actual 480-byte table. This keeps the proofs independent of the table's
  contents.
- St7735.Display.DrawChar uses the corrected `st7735_draw_buffer` (see
  Findings). The two versions agree whenever the character fits on screen.
- Where a header and its definition disagree, the model follows the
  definition. `get_state` is defined with an unused parameter, and
  `ws2812.h` does not declare the packed setter, `ws2812_fill_pixel_color` or
  `ws2812_update_length`. The header's note that the buffer holds R, G, B per
  pixel agrees with the corrected RGB setter.

## Findings

| source | as written | input that shows it | evidently intended | confidence | as-written member | corrected member |
|---|---|---|---|---|---|---|
| src/hal/leds/ws2812.c:138 | `uint16_t ofs = led * 3` wraps modulo 65536 for LEDs from 21846 on, so `ws2812_get_pixel_color` reads another LED's bytes | a strip of 21847 LEDs, LED 21846: offset 65538 wraps to 2 | read bytes 3·led .. 3·led+2 of the buffer | not executed | `Ws2812.ColorAtAsWrittenWraps` | `Ws2812.ColorAt` |
| src/hal/leds/ws2812.c:55-64 | `ws2812_set_pixel_color_rgb` stores green, red, blue, but `ws2812_show`, `ws2812_get_pixel_color`, `ws2812_fill_pixel_color` and the packed setter all treat byte 0 as red | set (r, g, b) = (255, 0, 0): the LED reads back as 0x00FF00 and is shown green | store red, green, blue, so the colour reads back as set and goes out as GRB | not executed | `Ws2812.RgbAsWrittenReadBack` | `Ws2812.RgbRoundTrip` |
| src/hal/displays/st7735.c:377-387 | after clipping the width to `w'`, `st7735_draw_buffer` sends the first 2·w'·h' bytes of the buffer, ignoring that its rows are 2·w bytes long | a 6×8 character at x = 125 on the 128-pixel screen: the width is cut to 3, and the second visible row starts with image byte 6 (the fourth pixel of row 0) instead of byte 12 (the first pixel of row 1) | send 2·w' bytes from each row, starting at 2·w·j | not executed | `St7735.BufferAsWrittenShears` | `St7735.BufferPixel` |
