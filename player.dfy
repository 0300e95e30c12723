/** The helpers of frontend/pages/HlsPlayer.jsx: the clock label, the
    choice of quality levels after the manifest is parsed, and the
    handlers that switch quality, speed, play state and sound.

    The React state and the fields of the `<video>` element and of the
    hls.js instance that the handlers write are the fields of `Player`. */
module Player {
  import opened Wrappers
  import opened Text

  // ---------------------------------------------------------------------
  // The clock label

  /** A media time as the element reports it: NaN before the metadata has
      loaded, otherwise a number of seconds. Infinities are not modelled. */
  datatype Time = NaN | Num(t: real)

  /** `Math.trunc` */
  function Trunc(x: real): int {
    if x >= 0.0 then x.Floor else -((-x).Floor)
  }

  /** JavaScript's `%` on numbers: the remainder takes the sign of the
      dividend. */
  function JsRemainder(x: real, d: real): real
    requires d != 0.0
  {
    x - d * (Trunc(x / d) as real)
  }

  /** `s.padStart(2, "0")` */
  function PadStart2(s: string): (r: string)
    ensures |s| >= 2 ==> r == s
    ensures |s| < 2 ==> |r| == 2 && r[2 - |s|..] == s && forall i :: 0 <= i < 2 - |s| ==> r[i] == '0'
  {
    if |s| >= 2 then s
    else if |s| == 1 then "0" + s
    else "00"
  }

  /** `formatTime` */
  function FormatTime(time: Time): string {
    match time
    case NaN => "0:00"
    case Num(t) =>
      Label(Minutes(t), Seconds(t))
  }

  /** `Math.floor(time / 60)` */
  function Minutes(t: real): int {
    (t / 60.0).Floor
  }

  /** `Math.floor(time % 60)` */
  function Seconds(t: real): int {
    JsRemainder(t, 60.0).Floor
  }

  /** The label for whole minutes and seconds. */
  function Label(mins: int, secs: int): (s: string)
    ensures mins >= 0 && secs >= 0 ==>
      s == NatToString(mins) + [':'] + PadStart2(NatToString(secs))
  {
    IntToString(mins) + ":" + PadStart2(IntToString(secs))
  }

  /** For a time that is not negative, the minutes are the whole seconds
      divided by 60 and the seconds field is their remainder. */
  lemma WholeParts(t: real)
    requires t >= 0.0
    ensures Minutes(t) == t.Floor / 60
    ensures Seconds(t) == t.Floor % 60
  {
    var n := t.Floor;
    var q := n / 60;
    assert 60 * q <= n < 60 * q + 60;
    assert (q as real) <= t / 60.0 < (q + 1) as real;
    assert Trunc(t / 60.0) == q;
    var r := JsRemainder(t, 60.0);
    assert r == t - 60.0 * (q as real);
    assert ((n - 60 * q) as real) <= r < ((n - 60 * q) + 1) as real;
  }

  /** A two-digit seconds field for 0..59. */
  lemma SecondsField(s: nat)
    requires s < 60
    ensures var f := PadStart2(NatToString(s));
      |f| == 2 && IsDigits(f) && ParseDigits(f) == s
  {
    ParseNatToString(s);
    var d := NatToString(s);
    var f := PadStart2(d);
    if s < 10 {
      assert f == "0" + d;
      assert f[..1] == "0";
      assert ParseDigits(f[..1]) == 0;
    }
  }

  /** The label of a time that is not negative: whole minutes, ':', and a
      seconds field. */
  lemma FormatNonNegative(t: real)
    requires t >= 0.0
    ensures FormatTime(Num(t)) == NatToString(t.Floor / 60) + [':'] + PadStart2(NatToString(t.Floor % 60))
  {
    WholeParts(t);
  }

  /** A numeral, ':', and a numeral split back into the two numerals. */
  lemma SplitClock(m: string, f: string)
    requires IsDigits(m) && IsDigits(f)
    ensures Split(m + [':'] + f, ':') == [m, f]
  {
    assert ':' !in m by {
      assert forall i :: 0 <= i < |m| ==> m[i] != ':';
    }
    assert ':' !in f by {
      assert forall i :: 0 <= i < |f| ==> f[i] != ':';
    }
    SplitAtSeparator(m, ':', f);
    SplitPlain(f, ':');
  }

  /** The label of a time that is not negative reads back as its whole
      seconds: it splits at its one ':' into a numeral of minutes and a
      two-digit numeral of seconds below 60. */
  lemma FormatTimeReadsBack(t: real)
    requires t >= 0.0
    ensures var parts := Split(FormatTime(Num(t)), ':');
      && |parts| == 2
      && IsDigits(parts[0]) && IsDigits(parts[1]) && |parts[1]| == 2
      && ParseDigits(parts[1]) < 60
      && 60 * ParseDigits(parts[0]) + ParseDigits(parts[1]) == t.Floor
  {
    var n: nat := t.Floor;
    var m := NatToString(n / 60);
    var f := PadStart2(NatToString(n % 60));
    FormatNonNegative(t);
    SecondsField(n % 60);
    ParseNatToString(n / 60);
    SplitClock(m, f);
  }

  // ---------------------------------------------------------------------
  // Quality levels

  /** A level of the hls.js instance; its height is `undefined` or not a
      number for an audio-only rendition. */
  datatype Level = Level(height: Option<int>, bitrate: int)

  /** `typeof l.height === "number" && l.height > 0` */
  predicate IsVideoLevel(l: Level) {
    l.height.Some? && l.height.value > 0
  }

  /** The filter run when the manifest is parsed. */
  function VideoLevels(levels: seq<Level>): (r: seq<Level>)
    ensures forall l :: l in r <==> l in levels && IsVideoLevel(l)
    ensures |r| <= |levels|
  {
    if |levels| == 0 then []
    else
      var init := levels[..|levels| - 1];
      var last := levels[|levels| - 1];
      assert levels == init + [last];
      VideoLevels(init) + (if IsVideoLevel(last) then [last] else [])
  }

  /** The filter keeps order: it distributes over concatenation. */
  lemma {:induction false} VideoLevelsAppend(a: seq<Level>, b: seq<Level>)
    ensures VideoLevels(a + b) == VideoLevels(a) + VideoLevels(b)
    decreases |b|
  {
    if |b| == 0 {
      assert a + b == a;
    } else {
      var init := b[..|b| - 1];
      assert a + b == (a + init) + [b[|b| - 1]];
      assert (a + b)[..|a + b| - 1] == a + init;
      VideoLevelsAppend(a, init);
    }
  }

  /** Filtering twice keeps what filtering once keeps. */
  lemma {:induction false} VideoLevelsIdempotent(levels: seq<Level>)
    ensures VideoLevels(VideoLevels(levels)) == VideoLevels(levels)
  {
    if |levels| > 0 {
      var init := levels[..|levels| - 1];
      var last := levels[|levels| - 1];
      var tail := if IsVideoLevel(last) then [last] else [];
      VideoLevelsIdempotent(init);
      VideoLevelsAppend(VideoLevels(init), tail);
      if IsVideoLevel(last) {
        assert VideoLevels([last]) == VideoLevels([]) + [last] by {
          assert [last][..0] == [];
        }
      }
    }
  }

  /** `levels.findIndex(l => l.height === h)` */
  function FindHeight(levels: seq<Level>, h: int): (r: Option<nat>)
    ensures r.Some? ==> r.value < |levels| && levels[r.value].height == Some(h)
    ensures r.Some? ==> forall j :: 0 <= j < r.value ==> levels[j].height != Some(h)
    ensures r.None? <==> forall j :: 0 <= j < |levels| ==> levels[j].height != Some(h)
  {
    if |levels| == 0 then None
    else if levels[0].height == Some(h) then Some(0)
    else
      match FindHeight(levels[1..], h)
      case None => None
      case Some(k) => Some(k + 1)
  }

  /** Every level the menu offers after the manifest is parsed has a match
      among the instance's levels: a real level of the same height. */
  lemma MenuLevelsMatch(manifest: seq<Level>, ui: nat)
    requires ui < |VideoLevels(manifest)|
    ensures var l := VideoLevels(manifest)[ui];
      l.height.Some? && FindHeight(manifest, l.height.value).Some?
  {
    var l := VideoLevels(manifest)[ui];
    assert l in VideoLevels(manifest);
    var k :| 0 <= k < |manifest| && manifest[k] == l;
  }

  /** Of two renditions with the same height only the first can be
      selected from the menu. */
  lemma SameHeightShadowed(manifest: seq<Level>, j: nat, k: nat)
    requires j < k < |manifest| && manifest[j].height == manifest[k].height
    requires manifest[k].height.Some?
    ensures FindHeight(manifest, manifest[k].height.value) != Some(k)
  {
  }

  // ---------------------------------------------------------------------
  // The player state

  /** What started a `togglePlay`: the space bar passes no event; a click
      passes one, which is ignored inside the control bar or the settings
      menu. */
  datatype Trigger = SpaceKey | Click(insideControls: bool)

  class Player {
    /** `hlsRef.current`: whether an hls.js instance is attached, its
        levels and its `currentLevel`. */
    var hlsPresent: bool
    var hlsLevels: seq<Level>
    var hlsCurrentLevel: int
    /** React state */
    var levels: seq<Level>
    var currentLevel: int
    var isPlaying: bool
    var playbackSpeed: real
    var showSettings: bool
    var volume: real
    /** The `<video>` element */
    var paused: bool
    var playbackRate: real
    var mediaVolume: real

    /** The menu offers video levels only, the selected entry is Auto (-1)
        or one of them, and the displayed speed and volume agree with the
        element. `isPlaying` is not tied to `paused`: only `togglePlay`
        writes it, so it stays true when the media ends or `play()` is
        refused. */
    ghost predicate Valid()
      reads this
    {
      && (forall l :: l in levels ==> IsVideoLevel(l))
      && -1 <= currentLevel < |levels|
      && playbackSpeed == playbackRate
      && volume == mediaVolume
    }

    /** The initial state: paused, full volume, normal speed, Auto, and an
        hls.js instance only where the browser supports it. */
    constructor(hlsSupported: bool)
      ensures Valid()
      ensures hlsPresent == hlsSupported && hlsLevels == [] && hlsCurrentLevel == -1
      ensures levels == [] && currentLevel == -1
      ensures paused && !isPlaying && playbackSpeed == 1.0 && !showSettings && volume == 1.0
    {
      hlsPresent := hlsSupported;
      hlsLevels := [];
      hlsCurrentLevel := -1;
      levels := [];
      currentLevel := -1;
      isPlaying := false;
      playbackSpeed := 1.0;
      showSettings := false;
      volume := 1.0;
      paused := true;
      playbackRate := 1.0;
      mediaVolume := 1.0;
    }

    /** The `MANIFEST_PARSED` handler, with the levels the instance has
        parsed. */
    method ManifestParsed(manifest: seq<Level>)
      requires Valid() && hlsPresent
      modifies this
      ensures Valid()
      ensures hlsLevels == manifest && levels == VideoLevels(manifest) && currentLevel == -1
      ensures hlsPresent == old(hlsPresent) && hlsCurrentLevel == old(hlsCurrentLevel)
      ensures isPlaying == old(isPlaying) && playbackSpeed == old(playbackSpeed)
      ensures showSettings == old(showSettings) && volume == old(volume)
      ensures paused == old(paused) && playbackRate == old(playbackRate) && mediaVolume == old(mediaVolume)
    {
      hlsLevels := manifest;
      levels := VideoLevels(manifest);
      currentLevel := -1;
    }

    /** `changeQuality(uiIndex)`: Auto, or the first real level whose
        height is that of the menu entry. */
    method ChangeQuality(uiIndex: int)
      requires Valid()
      modifies this
      ensures Valid()
      ensures !old(hlsPresent) ==> hlsCurrentLevel == old(hlsCurrentLevel) && currentLevel == old(currentLevel)
      ensures old(hlsPresent) && uiIndex == -1 ==> hlsCurrentLevel == -1 && currentLevel == -1
      ensures old(hlsPresent) && uiIndex != -1 ==>
        if 0 <= uiIndex < |levels| && levels[uiIndex].height.Some? && levels[uiIndex].height.value != 0
           && FindHeight(hlsLevels, levels[uiIndex].height.value).Some?
        then hlsCurrentLevel == FindHeight(hlsLevels, levels[uiIndex].height.value).value
          && currentLevel == uiIndex
          && hlsLevels[hlsCurrentLevel].height == levels[currentLevel].height
        else hlsCurrentLevel == old(hlsCurrentLevel) && currentLevel == old(currentLevel)
      ensures hlsPresent == old(hlsPresent) && hlsLevels == old(hlsLevels) && levels == old(levels)
      ensures isPlaying == old(isPlaying) && playbackSpeed == old(playbackSpeed)
      ensures showSettings == old(showSettings) && volume == old(volume)
      ensures paused == old(paused) && playbackRate == old(playbackRate) && mediaVolume == old(mediaVolume)
    {
      if !hlsPresent {
        return;
      }
      if uiIndex == -1 {
        hlsCurrentLevel := -1;
        currentLevel := -1;
        return;
      }
      // `levels[uiIndex]?.height` is undefined outside the menu, and
      // undefined and 0 are both falsy
      if !(0 <= uiIndex < |levels|) || levels[uiIndex].height.None? || levels[uiIndex].height.value == 0 {
        return;
      }
      var realIndex := FindHeight(hlsLevels, levels[uiIndex].height.value);
      if realIndex.Some? {
        hlsCurrentLevel := realIndex.value;
        currentLevel := uiIndex;
      }
    }

    /** `changeSpeed(speed)` */
    method ChangeSpeed(speed: real)
      requires Valid()
      modifies this
      ensures Valid()
      ensures playbackRate == speed && playbackSpeed == speed && !showSettings
      ensures hlsPresent == old(hlsPresent) && hlsLevels == old(hlsLevels) && hlsCurrentLevel == old(hlsCurrentLevel)
      ensures levels == old(levels) && currentLevel == old(currentLevel)
      ensures isPlaying == old(isPlaying) && volume == old(volume)
      ensures paused == old(paused) && mediaVolume == old(mediaVolume)
    {
      playbackRate := speed;
      playbackSpeed := speed;
      showSettings := false;
    }

    /** `togglePlay(e)`: the branch follows the element, not the displayed
        state. `playAllowed` is whether the element accepts `play()`; when
        it refuses, the element stays paused though the button shows
        playing. */
    method TogglePlay(trigger: Trigger, playAllowed: bool)
      requires Valid()
      modifies this
      ensures Valid()
      ensures trigger == Click(true) ==> paused == old(paused) && isPlaying == old(isPlaying)
      ensures trigger != Click(true) && old(paused) ==> isPlaying && paused == !playAllowed
      ensures trigger != Click(true) && !old(paused) ==> paused && !isPlaying
      ensures hlsPresent == old(hlsPresent) && hlsLevels == old(hlsLevels) && hlsCurrentLevel == old(hlsCurrentLevel)
      ensures levels == old(levels) && currentLevel == old(currentLevel)
      ensures playbackSpeed == old(playbackSpeed) && showSettings == old(showSettings) && volume == old(volume)
      ensures playbackRate == old(playbackRate) && mediaVolume == old(mediaVolume)
    {
      if trigger.Click? && trigger.insideControls {
        return;
      }
      if paused {
        if playAllowed {
          paused := false;
        }
        isPlaying := true;
      } else {
        paused := true;
        isPlaying := false;
      }
    }

    /** The media plays to its end: the element pauses by itself, and no
        handler of the component updates the displayed state. */
    method PlaybackEnded()
      requires Valid()
      modifies this
      ensures Valid()
      ensures paused && isPlaying == old(isPlaying)
      ensures hlsPresent == old(hlsPresent) && hlsLevels == old(hlsLevels) && hlsCurrentLevel == old(hlsCurrentLevel)
      ensures levels == old(levels) && currentLevel == old(currentLevel)
      ensures playbackSpeed == old(playbackSpeed) && showSettings == old(showSettings) && volume == old(volume)
      ensures playbackRate == old(playbackRate) && mediaVolume == old(mediaVolume)
    {
      paused := true;
    }

    /** The mute button: silent becomes full volume, anything else silent. */
    method ToggleMute()
      requires Valid()
      modifies this
      ensures Valid()
      ensures volume == (if old(volume) == 0.0 then 1.0 else 0.0)
      ensures hlsPresent == old(hlsPresent) && hlsLevels == old(hlsLevels) && hlsCurrentLevel == old(hlsCurrentLevel)
      ensures levels == old(levels) && currentLevel == old(currentLevel)
      ensures isPlaying == old(isPlaying) && playbackSpeed == old(playbackSpeed) && showSettings == old(showSettings)
      ensures paused == old(paused) && playbackRate == old(playbackRate)
    {
      var next := if volume == 0.0 then 1.0 else 0.0;
      volume := next;
      mediaVolume := next;
    }
  }

  /** Play, let the media end, and press the space bar: while the media is
      ended the button still shows playing, and the toggle plays again. */
  method ReplayAfterEnd() returns (shownPlayingWhileEnded: bool, playsAgain: bool)
    ensures shownPlayingWhileEnded && playsAgain
  {
    var p := new Player(true);
    p.TogglePlay(SpaceKey, true);
    p.PlaybackEnded();
    shownPlayingWhileEnded := p.isPlaying && p.paused;
    p.TogglePlay(SpaceKey, true);
    playsAgain := p.isPlaying && !p.paused;
  }

  /** The quality a menu entry selects right after the manifest is parsed
      always exists, and it is a level of the same height. */
  method SelectAfterManifest(manifest: seq<Level>, ui: nat) returns (realIndex: nat)
    requires ui < |VideoLevels(manifest)|
    ensures realIndex < |manifest|
    ensures manifest[realIndex].height == VideoLevels(manifest)[ui].height
  {
    var p := new Player(true);
    p.ManifestParsed(manifest);
    MenuLevelsMatch(manifest, ui);
    assert IsVideoLevel(VideoLevels(manifest)[ui]) by {
      assert VideoLevels(manifest)[ui] in VideoLevels(manifest);
    }
    p.ChangeQuality(ui);
    realIndex := p.hlsCurrentLevel;
  }
}
