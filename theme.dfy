/** The day/night theme of the watch face: a two-state machine driven by the
    hour of day. By day the sprite is drawn as is, in black on white; by night
    it is drawn inverted, with white text on black. */
module Theme {
  import opened Options

  /** GColorBlack, GColorWhite */
  datatype Color = Black | White

  /** GCompOpAssign, GCompOpAssignInverted */
  datatype CompOp = Assign | AssignInverted

  /** The three properties the theme controls: the sprite layer's compositing
      mode, the time layer's text colour and the window's background colour. */
  datatype Palette = Palette(compositing: CompOp, text: Color, background: Color)

  const DayStart: int := 6
  const NightStart: int := 18

  /** Hours in [6, 18) are day. */
  predicate IsDayHour(hour: int) {
    DayStart <= hour < NightStart
  }

  /** The palette update_time installs on entering day or night. */
  function PaletteFor(day: bool): (p: Palette)
    ensures p.text != p.background
    ensures p.compositing == Assign <==> day
    ensures p.background == White <==> day
  {
    if day then Palette(Assign, Black, White) else Palette(AssignInverted, White, Black)
  }

  /** The guard of update_time: Some(newDay) when a transition fires,
      None when the flag already agrees with the hour. */
  function Transition(day: bool, hour: int): (r: Option<bool>)
    ensures r.Some? <==> day != IsDayHour(hour)
    ensures r.Some? ==> r.value == IsDayHour(hour)
  {
    if !day && (hour >= 6 && hour < 18) then Some(true)
    else if day && (hour >= 18 || hour < 6) then Some(false)
    else None
  }

  /** The flag and the palette after one evaluation of the guard: the palette
      is replaced only when a transition fires. */
  function Step(day: bool, palette: Palette, hour: int): (r: (bool, Palette))
    ensures r.0 == IsDayHour(hour)
    ensures day == IsDayHour(hour) ==> r.1 == palette
    ensures palette == PaletteFor(day) ==> r.1 == PaletteFor(r.0)
  {
    match Transition(day, hour)
    case Some(d) => (d, PaletteFor(d))
    case None => (day, palette)
  }

  /** Evaluating the guard twice with the same hour changes nothing the
      second time. */
  lemma StepIdempotent(day: bool, palette: Palette, hour: int)
    ensures Step(Step(day, palette, hour).0, Step(day, palette, hour).1, hour) == Step(day, palette, hour)
  {
    var (d, p) := Step(day, palette, hour);
    assert Transition(d, hour) == None;
  }
}
