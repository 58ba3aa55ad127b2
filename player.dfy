/** The music card of the page (script.js:134-236): formatTime, which writes the current
    time and the duration as `m:ss`, and the playlist position that the previous, next
    and ended handlers move. Loading, playing and pausing the audio element are not part
    of this model. */
module Player {
  import opened Wrappers
  import opened JsBuiltins

  // ---------------------------------------------------------------------------
  // formatTime

  /** A JavaScript number as the audio element reports it: a time in seconds, NaN before
      the metadata has loaded, or an infinite duration. */
  datatype JsNumber = NaN | PositiveInfinity | NegativeInfinity | Finite(value: real)

  /** Math.trunc on a finite number. */
  function Trunc(x: real): int {
    if x >= 0.0 then x.Floor else -((-x).Floor)
  }

  /** The `%` operator on finite numbers: the remainder takes the dividend's sign. */
  function RealRemainder(x: real, m: real): real
    requires m > 0.0
  {
    x - m * Trunc(x / m) as real
  }

  /** String#padStart(length, fill) with a one-character fill. */
  function PadStart(s: string, length: nat, fill: char): (r: string)
    ensures |r| == if |s| < length then length else |s|
    ensures r[|r| - |s|..] == s
    decreases length - |s|
  {
    if |s| < length then PadStart([fill] + s, length, fill) else s
  }

  /** formatTime(seconds). The whole minutes, a colon and the whole seconds past the minute
      padded to two digits; NaN shows as 0:00. An infinite duration reaches Math.floor and
      the `%` operator, which give Infinity and NaN. */
  function FormatTime(seconds: JsNumber): string {
    match seconds
    case NaN => "0:00"
    case PositiveInfinity => "Infinity:NaN"
    case NegativeInfinity => "-Infinity:NaN"
    case Finite(s) =>
      var mins := (s / 60.0).Floor;
      var secs := RealRemainder(s, 60.0).Floor;
      IntToString(mins) + ":" + PadStart(IntToString(secs), 2, '0')
  }

  /** For a time that is not negative, the minutes and seconds shown are those of the
      whole seconds elapsed. */
  lemma WholeSeconds(s: real)
    requires s >= 0.0
    ensures (s / 60.0).Floor == s.Floor / 60
    ensures RealRemainder(s, 60.0).Floor == s.Floor % 60
  {
    var n := s.Floor;
    var q, r := n / 60, n % 60;
    assert n == 60 * q + r && 0 <= r < 60;
    assert n as real <= s < n as real + 1.0;
    assert q as real <= s / 60.0 < q as real + 1.0;
    assert Trunc(s / 60.0) == q;
    assert RealRemainder(s, 60.0) == s - 60.0 * q as real;
  }

  /** The two characters of a seconds count below 60, as padStart(2, "0") writes it. */
  lemma TwoDigitSeconds(secs: nat)
    requires secs < 60
    ensures PadStart(IntToString(secs), 2, '0') == [DigitChar(secs / 10), DigitChar(secs % 10)]
  {
    var text := IntToString(secs);
    assert text == NatToString(secs);
    if secs < 10 {
      assert text == [DigitChar(secs)];
      assert PadStart(text, 2, '0') == PadStart(['0'] + text, 2, '0');
    } else {
      var tens := secs / 10;
      assert tens < 10;
      assert NatToString(tens) == [DigitChar(tens)];
      assert text == NatToString(tens) + [DigitChar(secs % 10)];
    }
  }

  lemma FormatTimeOfParts(s: real, mins: int, secs: int)
    requires mins == (s / 60.0).Floor && secs == RealRemainder(s, 60.0).Floor
    ensures FormatTime(Finite(s)) == IntToString(mins) + ":" + PadStart(IntToString(secs), 2, '0')
  {
  }

  /** A time that is not negative is shown as `m:ss`: the whole minutes, a colon, and two
      digits of seconds below 60. */
  lemma FormatTimeIsMinutesColonSeconds(s: real)
    requires s >= 0.0
    ensures FormatTime(Finite(s))
      == IntToString(s.Floor / 60) + ":" + [DigitChar(s.Floor % 60 / 10), DigitChar(s.Floor % 60 % 10)]
  {
    var m, secs := s.Floor / 60, s.Floor % 60;
    WholeSeconds(s);
    FormatTimeOfParts(s, m, secs);
    TwoDigitSeconds(secs);
  }

  /** Reading `m:ss` back: parseInt stops at the colon and gives the minutes, and the
      last two characters are the seconds. */
  lemma MinutesColonSecondsReadBack(mins: nat, secs: nat, t: string)
    requires secs < 60
    requires t == IntToString(mins) + ":" + [DigitChar(secs / 10), DigitChar(secs % 10)]
    ensures |t| >= 4 && t[|t| - 3] == ':'
    ensures IsDigit(t[|t| - 2]) && IsDigit(t[|t| - 1]) && DigitValue(t[|t| - 2]) < 6
    ensures DigitValue(t[|t| - 2]) * 10 + DigitValue(t[|t| - 1]) == secs
    ensures ParseInt(t) == Some(mins)
  {
    var digits := [DigitChar(secs / 10), DigitChar(secs % 10)];
    assert t == NatToString(mins) + (":" + digits);
    ParseIntOfNatThen(mins, ":" + digits);
  }

  /** Reading the text of a time that is not negative back: parseInt gives the minutes,
      the last two characters are the seconds past the minute, and together they count
      the whole seconds elapsed. */
  lemma FormatTimeReadsBack(s: real)
    requires s >= 0.0
    ensures var t := FormatTime(Finite(s));
      && |t| >= 4 && t[|t| - 3] == ':'
      && IsDigit(t[|t| - 2]) && IsDigit(t[|t| - 1])
      && DigitValue(t[|t| - 2]) < 6
      && ParseInt(t) == Some(s.Floor / 60)
      && (s.Floor / 60) * 60 + DigitValue(t[|t| - 2]) * 10 + DigitValue(t[|t| - 1]) == s.Floor
  {
    FormatTimeIsMinutesColonSeconds(s);
    MinutesColonSecondsReadBack(s.Floor / 60, s.Floor % 60, FormatTime(Finite(s)));
  }

  /** Before the metadata has loaded the time shows as 0:00. */
  lemma NaNShowsZero()
    ensures FormatTime(NaN) == "0:00"
  {
  }

  // ---------------------------------------------------------------------------
  // The playlist

  datatype Song = Song(title: string, file: string)

  const Playlist: seq<Song> := [
    Song("Space Odyssey", "Assets/lagu.mp3"),
    Song("Acido", "Assets/lagu2.mp3"),
    Song("Lunar Waves", "Assets/lagu3.mp3"),
    Song("Amor na praia", "Assets/lagu4.mp3")
  ]

  /** `(i + 1) % playlist.length`, the next button and the end of a song. */
  function NextIndex(i: int): int {
    Remainder(i + 1, |Playlist|)
  }

  /** `(i - 1 + playlist.length) % playlist.length`, the previous button. */
  function PreviousIndex(i: int): int {
    Remainder(i - 1 + |Playlist|, |Playlist|)
  }

  /** Both moves keep an index of the playlist an index of the playlist, wrapping from
      the last song to the first and from the first to the last. */
  lemma MovesStayInPlaylist(i: int)
    requires 0 <= i < |Playlist|
    ensures 0 <= NextIndex(i) < |Playlist| && 0 <= PreviousIndex(i) < |Playlist|
    ensures NextIndex(i) == if i == |Playlist| - 1 then 0 else i + 1
    ensures PreviousIndex(i) == if i == 0 then |Playlist| - 1 else i - 1
  {
    assert |Playlist| == 4;
  }

  /** Previous undoes next, and next undoes previous. */
  lemma PreviousAndNextAreInverse(i: int)
    requires 0 <= i < |Playlist|
    ensures PreviousIndex(NextIndex(i)) == i
    ensures NextIndex(PreviousIndex(i)) == i
  {
    MovesStayInPlaylist(i);
    MovesStayInPlaylist(NextIndex(i));
    MovesStayInPlaylist(PreviousIndex(i));
  }

  /** The index after k presses of next. */
  function AdvancedBy(i: int, k: nat): int {
    if k == 0 then i else NextIndex(AdvancedBy(i, k - 1))
  }

  /** k presses of next move k songs on, modulo the playlist's length. */
  lemma {:induction false} AdvancingIsModular(i: int, k: nat)
    requires 0 <= i < |Playlist|
    ensures AdvancedBy(i, k) == (i + k) % |Playlist|
  {
    if k > 0 {
      AdvancingIsModular(i, k - 1);
      var j := (i + k - 1) % |Playlist|;
      MovesStayInPlaylist(j);
    }
  }

  /** As many presses of next as there are songs come back to the starting song. */
  lemma FullCycleReturns(i: int)
    requires 0 <= i < |Playlist|
    ensures AdvancedBy(i, |Playlist|) == i
  {
    AdvancingIsModular(i, |Playlist|);
  }

  /** The player's `currentSongIndex`, which the handlers reassign. */
  class MusicPlayer {
    var currentSongIndex: int

    predicate Valid()
      reads this
    {
      0 <= currentSongIndex < |Playlist|
    }

    /** The song loadSong shows and plays. */
    function CurrentSong(): Song
      reads this
      requires Valid()
    {
      Playlist[currentSongIndex]
    }

    /** The page starts on the first song. */
    constructor ()
      ensures currentSongIndex == 0 && Valid()
    {
      currentSongIndex := 0;
    }

    /** The previous button. */
    method Previous()
      modifies this
      ensures currentSongIndex == PreviousIndex(old(currentSongIndex))
      ensures old(Valid()) ==> Valid()
    {
      currentSongIndex := Remainder(currentSongIndex - 1 + |Playlist|, |Playlist|);
      if old(Valid()) {
        MovesStayInPlaylist(old(currentSongIndex));
      }
    }

    /** The next button. */
    method Next()
      modifies this
      ensures currentSongIndex == NextIndex(old(currentSongIndex))
      ensures old(Valid()) ==> Valid()
    {
      currentSongIndex := Remainder(currentSongIndex + 1, |Playlist|);
      if old(Valid()) {
        MovesStayInPlaylist(old(currentSongIndex));
      }
    }

    /** The `ended` listener advances exactly as the next button does. */
    method Ended()
      modifies this
      ensures currentSongIndex == NextIndex(old(currentSongIndex))
      ensures old(Valid()) ==> Valid()
    {
      Next();
    }
  }
}
