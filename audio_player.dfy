/**
 * The player surface of src/components/AudioPlayer.tsx: the `MM:SS` time
 * formatter, the effect that drives the `<audio>` element from the store's
 * `episode` and `isPlaying`, the handlers that copy media time into the
 * `progress`/`duration` state and seek, and the end-of-media wiring.
 *
 * Media time is whole seconds (or NaN, which an element reports for a
 * duration it does not know yet), so the floor and modulo of the formatter
 * are exact.
 */
module AudioPlayer {
  import opened Types
  import opened AudioPlayerStore

  // ---------------------------------------------------------------- MM:SS

  /** A media time as the element reports it. */
  datatype MediaTime = NaN | Secs(n: nat)

  predicate IsDigit(c: char)
  {
    '0' <= c <= '9'
  }

  predicate AllDigits(s: string)
  {
    forall i :: 0 <= i < |s| ==> IsDigit(s[i])
  }

  function DigitChar(d: nat): (c: char)
    requires d < 10
    ensures IsDigit(c)
  {
    (48 + d) as char
  }

  function DigitValue(c: char): (d: nat)
    requires IsDigit(c)
    ensures d < 10
  {
    c as int - 48
  }

  /** `n.toString()`: the shortest decimal numeral of `n`. */
  function Decimal(n: nat): (s: string)
    ensures 1 <= |s| && AllDigits(s)
    ensures (|s| == 1) <==> n < 10
    ensures n < 100 ==> |s| <= 2
    ensures s[0] == '0' <==> n == 0
  {
    if n < 10 then [DigitChar(n)] else Decimal(n / 10) + [DigitChar(n % 10)]
  }

  /** The number a decimal numeral denotes (leading zeros allowed). */
  function DecimalValue(s: string): nat
    requires AllDigits(s)
  {
    if s == [] then 0 else DecimalValue(s[..|s| - 1]) * 10 + DigitValue(s[|s| - 1])
  }

  lemma {:induction false} DecimalRoundTrip(n: nat)
    ensures DecimalValue(Decimal(n)) == n
  {
    if n >= 10 {
      var s := Decimal(n);
      assert s[..|s| - 1] == Decimal(n / 10);
      DecimalRoundTrip(n / 10);
    }
  }

  lemma {:induction false} LeadingZeroValue(s: string)
    requires AllDigits(s)
    ensures AllDigits(['0'] + s) && DecimalValue(['0'] + s) == DecimalValue(s)
  {
    if s != [] {
      var z := ['0'] + s;
      assert z[..|z| - 1] == ['0'] + s[..|s| - 1];
      LeadingZeroValue(s[..|s| - 1]);
    }
  }

  /** `s.padStart(2, '0')`: prefix zeros until the string has at least two characters. */
  function PadStart2(s: string): (r: string)
    ensures |r| == if |s| >= 2 then |s| else 2
    ensures |s| >= 2 ==> r == s
    ensures r[|r| - |s|..] == s
    ensures forall i :: 0 <= i < |r| - |s| ==> r[i] == '0'
  {
    if |s| >= 2 then s else seq(2 - |s|, _ => '0') + s
  }

  /** Zero-padding a numeral keeps its digits and its value. */
  lemma PadStart2Value(s: string)
    requires AllDigits(s)
    ensures AllDigits(PadStart2(s)) && DecimalValue(PadStart2(s)) == DecimalValue(s)
  {
    if |s| == 1 {
      assert PadStart2(s) == ['0'] + s;
      LeadingZeroValue(s);
    } else if |s| == 0 {
      assert PadStart2(s) == ['0'] + "0";
      LeadingZeroValue("0");
    }
  }

  /** `formatTime`: `00:00` for NaN or zero, else minutes and seconds, each padded to two digits. */
  function FormatTime(time: MediaTime): (r: string)
    ensures time.NaN? || time == Secs(0) ==> r == "00:00"
    ensures |r| >= 5 && r[|r| - 3] == ':'
    ensures AllDigits(r[..|r| - 3]) && AllDigits(r[|r| - 2..])
  {
    if time.NaN? || time.n == 0 then "00:00"
    else PadStart2(Decimal(time.n / 60)) + ":" + PadStart2(Decimal(time.n % 60))
  }

  /** How a listener reads an `M...M:SS` label back as a number of seconds. */
  function ReadClock(shown: string): Option<nat>
  {
    if |shown| >= 4 && shown[|shown| - 3] == ':' && AllDigits(shown[..|shown| - 3]) && AllDigits(shown[|shown| - 2..])
    then Some(DecimalValue(shown[..|shown| - 3]) * 60 + DecimalValue(shown[|shown| - 2..]))
    else None
  }

  /** A padded numeral of `n` has at least two digits and still denotes `n`. */
  lemma PaddedDecimal(n: nat)
    ensures var p := PadStart2(Decimal(n));
      && |p| >= 2 && (n < 100 ==> |p| == 2) && AllDigits(p) && DecimalValue(p) == n
      && (|p| == 2 || p[0] != '0')
  {
    PadStart2Value(Decimal(n));
    DecimalRoundTrip(n);
  }

  /** Zero, too, is formatted as its two padded fields. */
  lemma FormatTimeSplits(t: nat)
    ensures FormatTime(Secs(t)) == PadStart2(Decimal(t / 60)) + ":" + PadStart2(Decimal(t % 60))
  {
    if t == 0 {
      assert PadStart2(Decimal(0)) == "00";
    }
  }

  lemma DivModSixty(t: nat)
    ensures (t / 60) * 60 + t % 60 == t && t % 60 < 60
  {
  }

  /** Where the two fields and the colon sit in `mm + ":" + ss`. */
  lemma LabelSlices(mm: string, ss: string)
    requires |ss| == 2
    ensures var r := mm + ":" + ss;
      |r| == |mm| + 3 && r[|r| - 3] == ':' && r[..|r| - 3] == mm && r[|r| - 2..] == ss
  {
    var r := mm + ":" + ss;
    assert r[..|r| - 3] == mm;
    assert r[|r| - 2..] == ss;
  }

  /** A label whose fields are digit strings reads back as minutes * 60 + seconds. */
  lemma ReadClockParts(shown: string, mm: string, ss: string)
    requires |shown| >= 4 && shown[|shown| - 3] == ':'
    requires shown[..|shown| - 3] == mm && shown[|shown| - 2..] == ss
    requires AllDigits(mm) && AllDigits(ss)
    ensures ReadClock(shown) == Some(DecimalValue(mm) * 60 + DecimalValue(ss))
  {
  }

  /** A label of the numerals for `t div 60` and `t mod 60`, joined by a colon, reads back as `t`. */
  lemma FieldsReadBack(mm: string, ss: string, t: nat)
    requires |mm| >= 1 && AllDigits(mm) && DecimalValue(mm) == t / 60
    requires |ss| == 2 && AllDigits(ss) && DecimalValue(ss) == t % 60
    ensures ReadClock(mm + ":" + ss) == Some(t)
  {
    LabelSlices(mm, ss);
    ReadClockParts(mm + ":" + ss, mm, ss);
    DivModSixty(t);
  }

  /** The padded numerals of `t div 60` and `t mod 60`, which `FormatTime` joins with a colon. */
  lemma PaddedFields(t: nat) returns (mm: string, ss: string)
    ensures FormatTime(Secs(t)) == mm + ":" + ss
    ensures |mm| >= 2 && AllDigits(mm) && DecimalValue(mm) == t / 60 && (|mm| == 2 || mm[0] != '0')
    ensures |ss| == 2 && AllDigits(ss) && DecimalValue(ss) == t % 60
  {
    mm, ss := PadStart2(Decimal(t / 60)), PadStart2(Decimal(t % 60));
    DivModSixty(t);
    PaddedDecimal(t / 60);
    PaddedDecimal(t % 60);
    FormatTimeSplits(t);
  }

  /**
   * For whole seconds the label is a minutes field, a colon and a seconds
   * field: the minutes field is `t div 60` in at least two digits, with no
   * leading zero beyond the padding to two, and the seconds field is
   * `t mod 60`, always two digits and below 60. So the label reads back as
   * the time itself.
   */
  lemma FormatTimeFields(t: nat) returns (mm: string, ss: string)
    ensures FormatTime(Secs(t)) == mm + ":" + ss
    ensures |mm| >= 2 && AllDigits(mm) && DecimalValue(mm) == t / 60 && (|mm| == 2 || mm[0] != '0')
    ensures |ss| == 2 && AllDigits(ss) && DecimalValue(ss) == t % 60 < 60
    ensures ReadClock(mm + ":" + ss) == Some(t)
  {
    mm, ss := PaddedFields(t);
    FieldsReadBack(mm, ss, t);
    DivModSixty(t);
  }

  // ------------------------------------------------------ the sync effect

  /** A command the surface issues to the `<audio>` element. */
  datatype MediaCommand = SetSrc(url: string) | Load | Play | Pause

  /**
   * The effect run whenever `episode` or `isPlaying` changes, given the
   * element's current `src`: with an episode, load its audio when the source
   * differs, then play or pause as the flag says; without one, pause and
   * clear the source.
   */
  function SyncEffect(episode: Option<Episode>, isPlaying: bool, src: string): (cmds: seq<MediaCommand>)
    ensures episode.None? ==> cmds == [Pause, SetSrc("")]
    ensures episode.Some? ==>
      && |cmds| > 0
      && cmds[|cmds| - 1] == (if isPlaying then Play else Pause)
      && (Load in cmds <==> src != episode.value.audioUrl)
      && (src != episode.value.audioUrl ==> cmds[..2] == [SetSrc(episode.value.audioUrl), Load])
      && (Play in cmds <==> isPlaying)
      && (forall c :: c in cmds && c.SetSrc? ==> c.url == episode.value.audioUrl)
  {
    match episode
    case None => [Pause, SetSrc("")]
    case Some(e) =>
      (if src != e.audioUrl then [SetSrc(e.audioUrl), Load] else []) + [if isPlaying then Play else Pause]
  }

  /**
   * The part of the `<audio>` element the surface touches. The element's own
   * clock is not part of it: `currentTime` changes only by a load or a seek.
   */
  datatype MediaElement = MediaElement(src: string, paused: bool, currentTime: nat)

  /** One command's effect on the element: a load rewinds and leaves the element paused. */
  function Execute(el: MediaElement, c: MediaCommand): MediaElement
  {
    match c
    case SetSrc(u) => el.(src := u)
    case Load => el.(paused := true, currentTime := 0)
    case Play => el.(paused := false)
    case Pause => el.(paused := true)
  }

  /** The element after the commands, issued in order. */
  function Run(el: MediaElement, cmds: seq<MediaCommand>): MediaElement
    decreases |cmds|
  {
    if cmds == [] then el else Run(Execute(el, cmds[0]), cmds[1..])
  }

  lemma RunSteps(el: MediaElement, a: MediaCommand, b: MediaCommand, c: MediaCommand)
    ensures Run(el, [a]) == Execute(el, a)
    ensures Run(el, [a, b]) == Execute(Execute(el, a), b)
    ensures Run(el, [a, b, c]) == Execute(Execute(Execute(el, a), b), c)
  {
    var ea := Execute(el, a);
    var eb := Execute(ea, b);
    assert Run(eb, [c]) == Execute(eb, c);
    assert Run(ea, [b]) == eb;
    assert Run(ea, [b, c]) == Run(eb, [c]) by { assert [b, c][1..] == [c]; }
    assert Run(el, [a, b]) == Run(ea, [b]) by { assert [a, b][1..] == [b]; }
    assert Run(el, [a, b, c]) == Run(ea, [b, c]) by { assert [a, b, c][1..] == [b, c]; }
  }

  /**
   * After the effect the element plays the loaded episode's audio exactly
   * when the store says so; it issues a load (and so rewinds) only on a
   * change of source; without
   * an episode it is paused with no source. Running the effect again on the
   * settled element loads nothing.
   */
  lemma SyncOutcome(el: MediaElement, episode: Option<Episode>, isPlaying: bool)
    ensures var after := Run(el, SyncEffect(episode, isPlaying, el.src));
      && (episode.Some? ==> after.src == episode.value.audioUrl && after.paused == !isPlaying)
      && (episode.Some? && el.src == episode.value.audioUrl ==> after.currentTime == el.currentTime)
      && (episode.Some? && el.src != episode.value.audioUrl ==> after.currentTime == 0)
      && (episode.None? ==> after.src == "" && after.paused && after.currentTime == el.currentTime)
      && Load !in SyncEffect(episode, isPlaying, after.src)
  {
    var cmds := SyncEffect(episode, isPlaying, el.src);
    if episode.Some? {
      var e := episode.value;
      var last := if isPlaying then Play else Pause;
      RunSteps(el, SetSrc(e.audioUrl), Load, last);
      RunSteps(el, last, last, last);
      assert el.src != e.audioUrl ==> cmds == [SetSrc(e.audioUrl), Load, last];
      assert el.src == e.audioUrl ==> cmds == [last];
    } else {
      RunSteps(el, Pause, SetSrc(""), Pause);
    }
  }

  // ------------------------------------------------------------ the surface

  /** The `<audio>` element with the component's `progress` and `duration` state. */
  class Surface {
    var audio: MediaElement
    var progress: nat
    var duration: MediaTime

    /** Mounted: an element with no source, and both counters at zero. */
    constructor ()
      ensures audio == MediaElement("", true, 0) && progress == 0 && duration == Secs(0)
    {
      audio := MediaElement("", true, 0);
      progress := 0;
      duration := Secs(0);
    }

    /** The effect body, issuing its commands to the element one by one. */
    method Sync(episode: Option<Episode>, isPlaying: bool)
      modifies this
      ensures audio == Run(old(audio), SyncEffect(episode, isPlaying, old(audio).src))
      ensures progress == old(progress) && duration == old(duration)
    {
      ghost var before := audio;
      if episode.Some? {
        var e := episode.value;
        var last := if isPlaying then Play else Pause;
        RunSteps(audio, SetSrc(e.audioUrl), Load, last);
        RunSteps(audio, last, last, last);
        if audio.src != e.audioUrl {
          audio := audio.(src := e.audioUrl);
          audio := Execute(audio, Load);
        }
        if isPlaying {
          audio := Execute(audio, Play);
        } else {
          audio := Execute(audio, Pause);
        }
      } else {
        RunSteps(audio, Pause, SetSrc(""), Pause);
        audio := Execute(audio, Pause);
        audio := audio.(src := "");
      }
    }

    /** `onTimeUpdate`: the shown progress follows the element's position. */
    method HandleTimeUpdate()
      modifies this
      ensures progress == audio.currentTime
      ensures audio == old(audio) && duration == old(duration)
    {
      progress := audio.currentTime;
    }

    /** `onLoadedMetadata`: the shown duration becomes the one the element reports. */
    method HandleLoadedMetadata(reported: MediaTime)
      modifies this
      ensures duration == reported
      ensures audio == old(audio) && progress == old(progress)
    {
      duration := reported;
    }

    /** The slider's `onValueChange`: seek the element and show the same position. */
    method HandleProgressChange(value: nat)
      modifies this
      ensures audio == old(audio).(currentTime := value)
      ensures progress == value && progress == audio.currentTime
      ensures duration == old(duration)
    {
      audio := audio.(currentTime := value);
      progress := value;
    }

    /** `onEnded` is wired to `togglePlayPause`: a finished episode pauses and stays loaded. */
    method HandleEnded(store: Store)
      requires store.Valid()
      modifies store
      ensures store.Valid()
      ensures store.State() == ToggleTransition(old(store.State()))
      ensures old(store.State()).Playing? ==> store.State() == Paused(old(store.State()).current)
    {
      store.TogglePlayPause();
    }
  }
}
