# Kirby day/night watch face — Dafny model

This project models the state logic of a Pebble watch face that shows the
time under a rotating Kirby sprite and switches between a day and a night
theme. Everything it models lives in `src/main.c`:

- **`update_time`**, run once a minute: it writes the time as `HH:MM`
  (24-hour) or `hh:MM` (12-hour) into a static 6-byte buffer; it flips the
  function-static `day` flag, and with it the sprite layer's compositing mode,
  the time text colour and the window background, only when the flag
  disagrees with the hour: at the first update if it falls at night, and
  afterwards when the hour crosses 06:00 or 18:00; it destroys the previous sprite bitmap, creates and
  installs the one at `KIRBIES[cur_kirby]`, and advances `cur_kirby`,
  wrapping from 23 to 0.
- **`main_window_load`** seeds `cur_kirby` with `rand() % 24`, renders once
  through `update_time`, and steps the index back one place, so the first
  minute tick shows the same sprite again.
- **`main_window_unload`** destroys the sprite bitmap.

Modules, one per concern:

- `Catalog` (catalog.dfy): the 24-entry `KIRBIES` table, proved to hold each
  resource exactly once.
- `TimeFormat` (time_format.dfy): `%H:%M` / `%I:%M` as section 7.27.3.5 of ISO
  C11 defines them, with a parser as partner.
- `Theme` (theme.dfy): colours, compositing modes, the day/night guard.
- `Rotator` (rotator.dfy): the increment-and-wrap, the step back at load, and
  what a run of updates renders.
- `Bitmaps` (bitmaps.dfy): the platform calls as a log, and the single-owner
  discipline for the sprite bitmap (create only when none is live, destroy
  and install only a live one).
- `Watchface` (watchface.dfy): `Face`, the on-screen state, with pure
  functions `Tick` and `LoadFace` saying what one update and one load do; and
  the class `Watchface`, whose fields are the program's static variables and
  the layer properties, with methods `UpdateTime`, `Load` and `Unload` proved
  against those functions and keeping the invariant `Valid()`. That
  invariant says the theme matches `day`, `cur_kirby` is in range, the layer
  shows `s_kirby`, the call log obeys the single-owner discipline, and the
  only live bitmap is `s_kirby`.

The local time (`time`/`localtime`), the 12h/24h preference
(`clock_is_24h_style`) and the seed (`rand() % NUM_KIRBIES`) are method
parameters. The load renders `KIRBIES[r]`, advances to `(r + 1) % 24` and steps
back to `r`, so that, as the comment at src/main.c:110 says, the next update
keeps the same sprite: the first minute tick shows `KIRBIES[r]` again and
`KIRBIES[(r + 1) % 24]` follows (`LoadThenTwoTicks`).

## Model

| member | source | states |
|---|---|---|
| Catalog.IndexOf | src/main.c:5-30 | every Kirby resource has a position in `KIRBIES` holding it |
| Catalog.IndexOfAt | src/main.c:5-30 | looking up position i and asking for that resource's position gives back i |
| Catalog.CatalogIsBijection | src/main.c:3-30 | the catalog has `NUM_KIRBIES` = 24 entries, contains every Kirby resource, and repeats none |
| Catalog.CatalogCountsOnce | src/main.c:5-30 | each Kirby resource occurs exactly once in the catalog |
| TimeFormat.DigitChar | src/main.c:49 | the digit character strftime writes reads back as its value |
| TimeFormat.TwoDigits | src/main.c:49 | a number below 100 is written as exactly two zero-padded digits that read back as the number |
| TimeFormat.Hour12 | src/main.c:49 | the `%I` hour lies in 1..12 and agrees with the hour modulo 12, so 0 and 12 show as 12 |
| TimeFormat.FormatTime | src/main.c:48-49 | the time text is 5 characters (fits the 6-byte buffer with its NUL), digit-digit-colon-digit-digit, the first pair being the `%H` or `%I` hour and the second the minute |
| TimeFormat.ParseFormatTime | src/main.c:48-49 | reading the text back yields the shown hour and the minute |
| TimeFormat.FormatTime24Injective | src/main.c:49 | in 24-hour display, two times give the same text if and only if hour and minute agree |
| TimeFormat.FormatTime12SameText | src/main.c:49 | in 12-hour display, two times give the same text if and only if their hours agree modulo 12 and their minutes agree |
| TimeFormat.FormatTimeExamples | src/main.c:49 | 7:00 in 24h shows "07:00"; 0:05 in 12h shows "12:05"; 13:45 in 12h shows "01:45" |
| Theme.PaletteFor | src/main.c:58-67 | the day palette is Assign with black text on white, the night palette inverted with white text on black; text and background always differ |
| Theme.Transition | src/main.c:57-69 | a transition fires if and only if the flag disagrees with whether the hour is in [6,18), and the new flag is that answer |
| Theme.Step | src/main.c:54-69 | after the guard the flag is `6 <= hour < 18` whatever it was; if it already agreed, the palette is untouched; a palette consistent with the flag stays consistent |
| Theme.StepIdempotent | src/main.c:57-69 | a second evaluation with the same hour changes neither flag nor palette |
| Rotator.Advance | src/main.c:77-79 | increment-then-wrap keeps the index in [0,24) and equals `(k + 1) % 24` |
| Rotator.StepBack | src/main.c:110-111 | the step back stays in [0,24) and is undone by one advance |
| Rotator.StepBackAdvance | src/main.c:110-111 | stepping back after an advance returns to the original index |
| Rotator.RenderedIndices | src/main.c:74-79 | n updates render n indices, all within the catalog |
| Rotator.RenderedIndexAt | src/main.c:74-79 | the i-th of n updates renders index `(start + i) % 24` |
| Rotator.OffsetReaching | src/main.c:77-79 | from any start, index k is reached after `(k - start) mod 24` advances |
| Rotator.DistinctOffsets | src/main.c:77-79 | distinct offsets within one cycle reach distinct indices |
| Rotator.FullCycleRendersEachIndexOnce | src/main.c:74-79 | 24 consecutive updates render every index in [0,24), none twice |
| Rotator.RenderedSprites | src/main.c:74-75 | n updates show n sprites |
| Rotator.RenderedSpriteAt | src/main.c:74-75 | each update shows `KIRBIES` at the index it renders |
| Rotator.FullCycleIsRotation | src/main.c:74-79 | 24 consecutive updates show the catalog rotated to begin at the current index |
| Rotator.FullCycleShowsEachSpriteOnce | src/main.c:74-79 | 24 consecutive updates show a permutation of the catalog, each sprite exactly once |
| Rotator.RotationAt | src/main.c:77-79 | position i of the rotated catalog is entry `(start + i) % 24` |
| Bitmaps.LiveWereCreated | src/main.c:72-75 | every live bitmap was created by an earlier call |
| Bitmaps.AtMostOneLive | src/main.c:72-75 | under release-before-create, at most one sprite bitmap is live |
| Bitmaps.OwnershipOkPrefix | src/main.c:72-75 | the discipline held at every earlier point of the run, so at no moment were two bitmaps live |
| Bitmaps.AppendThemeCalls | src/main.c:57-69 | theme calls leave the live and created bitmaps alone and keep the discipline |
| Bitmaps.AppendOther | src/main.c:51 | a call that does not touch bitmaps leaves live and created bitmaps alone |
| Bitmaps.AppendDestroy | src/main.c:72-73 | destroying the live bitmap removes it and keeps the discipline |
| Bitmaps.AppendCreate | src/main.c:74 | creating a fresh bitmap while none is live makes it the only live one |
| Bitmaps.AppendInstall | src/main.c:75 | installing the live bitmap on the layer keeps the discipline |
| Watchface.Tick | src/main.c:42-80 | one update: flag becomes `6 <= hour < 18`; theme untouched when it already matched, and the palette of the new flag when a transition fires; consistency of theme and flag preserved; index becomes `(old + 1) % 24`; sprite shown is `KIRBIES` at the old index; text is 5 characters reading back as the shown hour and minute |
| Watchface.LoadFace | src/main.c:105-111 | after the load seeded with r, `cur_kirby == r`, the sprite shown is `KIRBIES[r]`, the flag matches the hour, and the theme is consistent |
| Watchface.LoadThenTwoTicks | src/main.c:105-111 | the first tick after load shows `KIRBIES[r]` again, the second `KIRBIES[(r+1) % 24]` |
| Watchface.Run | src/main.c:82-85 | after n ticks the index is `(start + n) % 24`, theme consistency is kept, and the flag matches the last hour |
| Watchface.ShownDuring | src/main.c:82-85 | a run of n ticks yields n sprites, each taken from what that tick shows |
| Watchface.ShownDuringIsRotation | src/main.c:74-79 | the sprites of a run are those the rotator renders from the current index, whatever the clock readings |
| Watchface.DayOfSprites | src/main.c:74-79 | any 24 consecutive ticks show the catalog rotated to the current index, every sprite exactly once |
| Watchface.ThemeCalls | src/main.c:57-69 | update_time makes theme calls if and only if the flag disagrees with the hour, and they are only theme calls |
| Watchface.Watchface.constructor | src/main.c:38-54 | initial state: `day` true, `cur_kirby` 0, no bitmap and none created yet, "00:00" in the buffer, black text (line 94), white background (line 127), default Assign compositing; the invariant holds |
| Watchface.Watchface.UpdateTime | src/main.c:42-80 | keeps the invariant; the on-screen state becomes `Tick` of the old one; a fresh bitmap of `KIRBIES[old cur_kirby]` becomes `s_kirby`; calls are: text, theme calls only on a transition, release of the old bitmap, then create and install of the new one |
| Watchface.Watchface.UpdateTheme | src/main.c:53-69 | flag becomes `6 <= hour < 18`; the three theme properties are untouched unless it changed, and then set to the new palette; nothing else changes |
| Watchface.Watchface.ReplaceSprite | src/main.c:71-79 | the old bitmap is released before the new one is created and installed; the index advances with wrap-around; the theme is untouched |
| Watchface.Watchface.Load | src/main.c:105-111 | keeps the invariant; the on-screen state becomes `LoadFace` of the old one, so `cur_kirby == r` and `KIRBIES[r]` is shown |
| Watchface.Watchface.Unload | src/main.c:119-121 | the sprite bitmap is released, leaving no live bitmap; `s_kirby` keeps its now-released value; nothing else changes |

## Left out

- Window, layer and font creation, destruction, geometry and alignment, and `layer_add_child` are platform plumbing with no logic to state. Of unload, only the bitmap release and the loss of the layer's bitmap are modelled.
- The event loop and the minute tick subscription are host scheduling; a tick is a call of `UpdateTime`, and a run of ticks is `Run`.
- `time`, `localtime`, `clock_is_24h_style`, `srand` and `rand` are nondeterministic platform calls; their results are parameters, with the hour in [0,23], the minute in [0,59] and the seed in [0,24).
- `strftime` is modelled only for `%H`, `%I` and `%M`. The pixel meaning of colours and compositing modes is not modelled; they are enum values.
- The initial compositing mode of the sprite layer is never set by the source. It is taken to be the platform default, Assign.
- Resource identifiers are distinct enum values. Their numeric values come from the generated resource header, which is not part of this model.
- Watchface.Watchface.ReplaceSprite: bitmap creation is assumed to succeed; a NULL result of `gbitmap_create_with_resource`, which the source would store and install and then skip at the next release, is not modelled. The same holds for UpdateTime and Load, which call it.
- Watchface.Watchface.Unload: the invariant is not re-established after it. `s_kirby` still names the released bitmap, and the app makes no further update after unload.
- Date text, battery and bluetooth display are absent from the source and not modelled.
