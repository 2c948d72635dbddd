/** The "mm:ss" text of a clock label (ChessGUI.formatTime). */
module ClockText {
  import opened Decimal

  /** A negative reading shows as zero. */
  function Clamp(ms: int): nat {
    if ms < 0 then 0 else ms
  }

  /**
   * Whole minutes and the remaining whole seconds of a reading. Java's
   * truncating division agrees with Dafny's here because the dividend
   * is never negative.
   */
  function ClockFields(ms: int): (f: (nat, nat))
    ensures f.1 < 60
    ensures f.0 * 60 + f.1 == Clamp(ms) / 1000
  {
    var totalSec := Clamp(ms) / 1000;
    (totalSec / 60, totalSec % 60)
  }

  /** String.format("%02d:%02d", min, sec). */
  function FormatTime(ms: int): (r: string)
    ensures |r| >= 5 && r[|r| - 3] == ':'
    ensures AllDigits(r[..|r| - 3]) && AllDigits(r[|r| - 2..])
    ensures ParseDigits(r[..|r| - 3]) == ClockFields(ms).0
    ensures ParseDigits(r[|r| - 2..]) == ClockFields(ms).1
    ensures ClockFields(ms).0 < 100 ==> |r| == 5
    ensures ClockFields(ms).0 >= 10 ==> r[..|r| - 3] == Digits(ClockFields(ms).0)
  {
    var (min, sec) := ClockFields(ms);
    var r := Pad2(min) + ":" + Pad2(sec);
    assert r[..|r| - 3] == Pad2(min) && r[|r| - 2..] == Pad2(sec);
    r
  }

  /** Reads a label back: the total number of whole seconds it shows. */
  function ShownSeconds(text: string): (s: nat)
    requires |text| >= 3 && AllDigits(text[..|text| - 3]) && AllDigits(text[|text| - 2..])
  {
    ParseDigits(text[..|text| - 3]) * 60 + ParseDigits(text[|text| - 2..])
  }

  /** The label loses exactly the milliseconds below a whole second, and nothing of a negative reading. */
  lemma FormatTimeRoundTrip(ms: int)
    ensures ShownSeconds(FormatTime(ms)) == Clamp(ms) / 1000
  {
  }

  /** Two readings show the same label exactly when they agree on whole seconds. */
  lemma {:induction false} FormatTimeSameLabel(a: int, b: int)
    ensures FormatTime(a) == FormatTime(b) <==> Clamp(a) / 1000 == Clamp(b) / 1000
  {
    if FormatTime(a) == FormatTime(b) {
      FormatTimeRoundTrip(a);
      FormatTimeRoundTrip(b);
    }
  }

  /** Under one second, and for any negative reading, the label is "00:00". */
  lemma NegativeShowsZero(ms: int)
    requires ms < 1000
    ensures FormatTime(ms) == "00:00"
  {
    assert Digits(0) == "0";
  }

}
