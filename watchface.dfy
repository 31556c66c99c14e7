/** The watch face's per-minute update (update_time), the seeding done when
    the main window loads, and the bitmap release when it unloads.

    Face and the functions on it say what one update and one load do to what
    is on screen; the class Watchface holds the program's mutable state and
    its methods are proved against those functions. */
module Watchface {
  import opened Options
  import opened Catalog
  import opened TimeFormat
  import opened Theme
  import opened Rotator
  import opened Bitmaps

  /** What is on screen, plus the two pieces of hidden state that decide the
      next update: the day flag and the sprite index. */
  datatype Face = Face(day: bool, curKirby: int, palette: Palette, text: string, shown: Option<Resource>)

  /** The theme matches the day flag and the index is inside the catalog. */
  predicate Consistent(f: Face) {
    InRange(f.curKirby) && f.palette == PaletteFor(f.day)
  }

  /** The wall-clock sample and display preference of one update. */
  datatype Clock = Clock(hour: int, minute: int, is24h: bool)

  predicate ValidClock(c: Clock) {
    0 <= c.hour < 24 && 0 <= c.minute < 60
  }

  /** One update_time: new time text, the theme guard, the sprite at the
      current index, then the index advanced. */
  function Tick(f: Face, c: Clock): (g: Face)
    requires InRange(f.curKirby) && ValidClock(c)
    ensures g.day == IsDayHour(c.hour)
    ensures f.day == IsDayHour(c.hour) ==> g.palette == f.palette
    ensures f.day != IsDayHour(c.hour) ==> g.palette == PaletteFor(g.day)
    ensures Consistent(f) ==> Consistent(g)
    ensures InRange(g.curKirby) && g.curKirby == (f.curKirby + 1) % NumKirbies
    ensures g.shown == Some(Kirbies[f.curKirby])
    ensures |g.text| == 5 && ParseTime(g.text) == Some((ShownHour(c.hour, c.is24h), c.minute))
  {
    ParseFormatTime(c.hour, c.minute, c.is24h);
    var (day, palette) := Step(f.day, f.palette, c.hour);
    Face(day, Advance(f.curKirby), palette, FormatTime(c.hour, c.minute, c.is24h), Some(Kirbies[f.curKirby]))
  }

  /** The part of main_window_load that seeds the rotation: the index is set
      to the seed r (rand() % NUM_KIRBIES), one update renders, and the index
      is stepped back so that the next update renders the same sprite. */
  function LoadFace(f: Face, r: int, c: Clock): (g: Face)
    requires InRange(r) && ValidClock(c)
    ensures g.curKirby == r
    ensures g.shown == Some(Kirbies[r])
    ensures g.day == IsDayHour(c.hour)
    ensures f.palette == PaletteFor(f.day) ==> Consistent(g)
  {
    var t := Tick(f.(curKirby := r), c);
    t.(curKirby := StepBack(t.curKirby))
  }

  /** The first update after a load seeded with r shows KIRBIES[r] again, the
      sprite the load showed; the second shows KIRBIES[(r + 1) % 24]. */
  lemma LoadThenTwoTicks(f: Face, r: int, c0: Clock, c1: Clock, c2: Clock)
    requires InRange(r) && ValidClock(c0) && ValidClock(c1) && ValidClock(c2)
    ensures LoadFace(f, r, c0).shown == Some(Kirbies[r])
    ensures Tick(LoadFace(f, r, c0), c1).shown == Some(Kirbies[r])
    ensures Tick(Tick(LoadFace(f, r, c0), c1), c2).shown == Some(Kirbies[(r + 1) % NumKirbies])
  {
  }

  /** The face after a run of updates. */
  function Run(f: Face, clocks: seq<Clock>): (g: Face)
    requires InRange(f.curKirby)
    requires forall i :: 0 <= i < |clocks| ==> ValidClock(clocks[i])
    ensures InRange(g.curKirby) && g.curKirby == (f.curKirby + |clocks|) % NumKirbies
    ensures Consistent(f) ==> Consistent(g)
    ensures clocks != [] ==> g.day == IsDayHour(clocks[|clocks| - 1].hour)
    decreases |clocks|
  {
    if clocks == [] then f
    else
      var next := Tick(f, clocks[0]);
      assert (next.curKirby + (|clocks| - 1)) % NumKirbies == (f.curKirby + |clocks|) % NumKirbies;
      Run(next, clocks[1..])
  }

  /** The sprite shown by each update of a run, in order. */
  function ShownDuring(f: Face, clocks: seq<Clock>): (s: seq<Resource>)
    requires InRange(f.curKirby)
    requires forall i :: 0 <= i < |clocks| ==> ValidClock(clocks[i])
    ensures |s| == |clocks|
    decreases |clocks|
  {
    if clocks == [] then []
    else
      var next := Tick(f, clocks[0]);
      [next.shown.value] + ShownDuring(next, clocks[1..])
  }

  /** A run shows the sprites the rotator renders from the current index,
      whatever the clock readings. */
  lemma {:induction false} ShownDuringIsRotation(f: Face, clocks: seq<Clock>)
    requires InRange(f.curKirby)
    requires forall i :: 0 <= i < |clocks| ==> ValidClock(clocks[i])
    ensures ShownDuring(f, clocks) == RenderedSprites(f.curKirby, |clocks|)
    decreases |clocks|
  {
    if clocks != [] {
      var g := Tick(f, clocks[0]);
      assert g.curKirby == Advance(f.curKirby);
      ShownDuringIsRotation(g, clocks[1..]);
    }
  }

  /** Any 24 consecutive updates show every sprite of the catalog exactly
      once, beginning with the one at the current index. */
  lemma DayOfSprites(f: Face, clocks: seq<Clock>)
    requires InRange(f.curKirby) && |clocks| == NumKirbies
    requires forall i :: 0 <= i < |clocks| ==> ValidClock(clocks[i])
    ensures ShownDuring(f, clocks) == Kirbies[f.curKirby..] + Kirbies[..f.curKirby]
    ensures forall r: Resource :: multiset(ShownDuring(f, clocks))[r] == 1
  {
    ShownDuringIsRotation(f, clocks);
    FullCycleIsRotation(f.curKirby);
    FullCycleShowsEachSpriteOnce(f.curKirby);
  }

  /** The theme calls update_time makes: none unless the guard fires, and
      then compositing mode, text colour and background, in that order. */
  function ThemeCalls(day: bool, hour: int): (cs: seq<Call>)
    ensures cs == [] <==> day == IsDayHour(hour)
    ensures forall i :: 0 <= i < |cs| ==> IsThemeCall(cs[i])
  {
    match Transition(day, hour)
    case Some(d) =>
      var p := PaletteFor(d);
      [SetCompositing(p.compositing), SetTextColor(p.text), SetBackground(p.background)]
    case None => []
  }

  /** Releases the previous sprite bitmap, if there is one. */
  function ReleaseCalls(sprite: Option<Bitmap>): seq<Call> {
    match sprite
    case Some(b) => [DestroyBitmap(b)]
    case None => []
  }

  function AsSet(sprite: Option<Bitmap>): set<Bitmap> {
    match sprite
    case Some(b) => {b}
    case None => {}
  }

  /** The program's static state: the function-static `day`, `cur_kirby`,
      `s_kirby`, the buffer behind the time text, the properties of the
      layers and window that the theme sets, and the bitmap shown by the
      sprite layer. */
  class Watchface {
    var day: bool
    var curKirby: int
    var sprite: Option<Bitmap>       // s_kirby
    var layerBitmap: Option<Bitmap>  // the bitmap set on s_kirby_layer
    var compositing: CompOp          // of s_kirby_layer
    var textColor: Color             // of s_time_layer
    var background: Color            // of s_main_window
    var timeText: string             // the static buffer shown by s_time_layer
    var nextSerial: nat              // tells apart the bitmaps created so far
    ghost var calls: seq<Call>       // platform calls made so far, in order

    function View(): Face
      reads this
    {
      Face(day, curKirby, Palette(compositing, textColor, background), timeText,
           match layerBitmap case Some(b) => Some(b.resource) case None => None)
    }

    ghost predicate Valid()
      reads this
    {
      Consistent(View()) &&
      layerBitmap == sprite &&
      OwnershipOk(calls) &&
      Live(calls) == AsSet(sprite) &&
      (forall b :: b in Created(calls) ==> b.serial < nextSerial)
    }

    /** The state before the first update: the static initialisers (`day`
        true, `cur_kirby` 0, no bitmap, "00:00" in the buffer), the white
        window background set by init, the black text colour set when the
        time layer is made, and the platform's default compositing mode
        (Assign) of a new bitmap layer. */
    constructor ()
      ensures Valid()
      ensures day && curKirby == 0 && sprite == None && layerBitmap == None
      ensures compositing == Assign && textColor == Black && background == White
      ensures timeText == "00:00" && nextSerial == 0 && calls == []
    {
      day := true;
      curKirby := 0;
      sprite := None;
      layerBitmap := None;
      compositing := Assign;
      textColor := Black;
      background := White;
      timeText := "00:00";
      nextSerial := 0;
      calls := [];
    }

    /** update_time, with the local time and the 12h/24h preference given. */
    method UpdateTime(hour: int, minute: int, is24h: bool)
      requires Valid() && 0 <= hour < 24 && 0 <= minute < 60
      modifies this
      ensures Valid()
      ensures View() == Tick(old(View()), Clock(hour, minute, is24h))
      ensures sprite == Some(Bitmap(old(nextSerial), Kirbies[old(curKirby)]))
      ensures nextSerial == old(nextSerial) + 1
      ensures calls == old(calls) + [SetText(timeText)] + ThemeCalls(old(day), hour)
                       + ReleaseCalls(old(sprite)) + [CreateBitmap(sprite.value), SetLayerBitmap(sprite.value)]
    {
      ghost var before := View();
      timeText := FormatTime(hour, minute, is24h);
      AppendOther(calls, SetText(timeText));
      calls := calls + [SetText(timeText)];
      UpdateTheme(hour);
      assert (day, Palette(compositing, textColor, background)) == Step(before.day, before.palette, hour);
      ReplaceSprite();
      assert View() == Tick(before, Clock(hour, minute, is24h));
    }

    /** The day/night section of update_time. */
    method UpdateTheme(hour: int)
      requires Valid() && 0 <= hour < 24
      modifies this
      ensures Valid()
      ensures day == IsDayHour(hour)
      ensures Palette(compositing, textColor, background)
              == if old(day) == IsDayHour(hour) then old(Palette(compositing, textColor, background)) else PaletteFor(day)
      ensures calls == old(calls) + ThemeCalls(old(day), hour)
      ensures curKirby == old(curKirby) && sprite == old(sprite) && layerBitmap == old(layerBitmap)
      ensures timeText == old(timeText) && nextSerial == old(nextSerial)
    {
      if !day && (hour >= 6 && hour < 18) {
        compositing := Assign;
        textColor := Black;
        background := White;
        day := true;
        ghost var made := [SetCompositing(Assign), SetTextColor(Black), SetBackground(White)];
        AppendThemeCalls(calls, made);
        calls := calls + made;
      } else if day && (hour >= 18 || hour < 6) {
        compositing := AssignInverted;
        textColor := White;
        background := Black;
        day := false;
        ghost var made := [SetCompositing(AssignInverted), SetTextColor(White), SetBackground(Black)];
        AppendThemeCalls(calls, made);
        calls := calls + made;
      }
    }

    /** The sprite section of update_time: release the previous bitmap, create
        and install the one at the current index, then advance the index. */
    method ReplaceSprite()
      requires Valid()
      modifies this
      ensures Valid()
      ensures sprite == Some(Bitmap(old(nextSerial), Kirbies[old(curKirby)])) && layerBitmap == sprite
      ensures curKirby == Advance(old(curKirby))
      ensures nextSerial == old(nextSerial) + 1
      ensures calls == old(calls) + ReleaseCalls(old(sprite)) + [CreateBitmap(sprite.value), SetLayerBitmap(sprite.value)]
      ensures day == old(day) && timeText == old(timeText)
      ensures compositing == old(compositing) && textColor == old(textColor) && background == old(background)
    {
      if sprite.Some? {
        AppendDestroy(calls, sprite.value);
        calls := calls + [DestroyBitmap(sprite.value)];
      }
      var b := Bitmap(nextSerial, Kirbies[curKirby]);
      nextSerial := nextSerial + 1;
      AppendCreate(calls, b);
      calls := calls + [CreateBitmap(b)];
      sprite := Some(b);
      AppendInstall(calls, b);
      calls := calls + [SetLayerBitmap(b)];
      layerBitmap := sprite;

      curKirby := curKirby + 1;
      if curKirby > NumKirbies - 1 {
        curKirby := 0;
      }
    }

    /** The rotation seeding of main_window_load, with the seed r standing
        for rand() % NUM_KIRBIES and the update's clock reading given. */
    method Load(r: int, hour: int, minute: int, is24h: bool)
      requires Valid() && InRange(r) && 0 <= hour < 24 && 0 <= minute < 60
      modifies this
      ensures Valid()
      ensures View() == LoadFace(old(View()), r, Clock(hour, minute, is24h))
      ensures sprite == Some(Bitmap(old(nextSerial), Kirbies[r]))
      ensures nextSerial == old(nextSerial) + 1
      ensures calls == old(calls) + [SetText(timeText)] + ThemeCalls(old(day), hour)
                       + ReleaseCalls(old(sprite)) + [CreateBitmap(sprite.value), SetLayerBitmap(sprite.value)]
    {
      curKirby := r;
      UpdateTime(hour, minute, is24h);
      curKirby := (curKirby - 1 + NumKirbies) % NumKirbies;
    }

    /** The bitmap release of main_window_unload; the layer that showed the
        bitmap is destroyed with it. `s_kirby` keeps its now-released value. */
    method Unload()
      requires Valid()
      modifies this
      ensures OwnershipOk(calls) && Live(calls) == {}
      ensures calls == old(calls) + ReleaseCalls(old(sprite))
      ensures sprite == old(sprite) && layerBitmap == None
      ensures day == old(day) && curKirby == old(curKirby) && timeText == old(timeText)
      ensures compositing == old(compositing) && textColor == old(textColor) && background == old(background)
      ensures nextSerial == old(nextSerial)
    {
      layerBitmap := None;
      if sprite.Some? {
        AppendDestroy(calls, sprite.value);
        calls := calls + [DestroyBitmap(sprite.value)];
      }
    }
  }
}
